/** One hour through `reconcile` of `cli/archive/command.py`: the silences found, what they lose measured, and both
    booked in the ledger. */
module Reconciling {
  import opened Prelude
  import opened Clock
  import opened Spans
  import L = Ledger
  import Reconcile
  import Residuals
  import Settle

  type Rows = seq<Reconcile.BookRow>

  // ---- windows as the ledger keeps them

  function SpansOf(gaps: seq<Reconcile.Gap>): (s: seq<Span>)
    ensures |s| == |gaps|
  {
    seq(|gaps|, i requires 0 <= i < |gaps| => Span(gaps[i].start, gaps[i].end))
  }

  ghost predicate Forward(gaps: seq<Reconcile.Gap>) {
    Reconcile.InOrder(gaps) && forall i :: 0 <= i < |gaps| ==> gaps[i].start <= gaps[i].end
  }

  lemma SpansDisjoint(gaps: seq<Reconcile.Gap>)
    requires Forward(gaps)
    ensures Disjoint(SpansOf(gaps))
  {
  }

  ghost predicate Within(inner: seq<Reconcile.Gap>, outer: seq<Reconcile.Gap>) {
    forall h :: h in inner ==> exists i :: 0 <= i < |outer| && outer[i].start <= h.start && h.end <= outer[i].end
  }

  lemma SpansInside(inner: seq<Reconcile.Gap>, outer: seq<Reconcile.Gap>)
    requires Within(inner, outer)
    ensures Covered(SpansOf(inner)) <= Covered(SpansOf(outer))
  {
    hide Covered;
    var a, b := SpansOf(inner), SpansOf(outer);
    forall t | t in Covered(a) ensures t in Covered(b) {
      CoveredMember(a, t);
      CoveredMember(b, t);
      var k :| 0 <= k < |a| && t in Points(a[k]);
      assert inner[k] in inner;
      var i :| 0 <= i < |outer| && outer[i].start <= inner[k].start && inner[k].end <= outer[i].end;
      assert In(b[i], t) && t in Points(b[i]);
    }
  }

  /** The gaps a partition admits and what their measurement leaves of them. */
  lemma GapsMeasured(primary: Rows, secondary: Rows, threshold: int, hourStart: int, hourEnd: int)
    requires threshold >= 0 && Reconcile.Partition(primary, secondary, threshold, hourStart, hourEnd).Ok?
    ensures var gaps := Reconcile.Partition(primary, secondary, threshold, hourStart, hourEnd).value.0;
      && Residuals.Measured(gaps, secondary, threshold).Ok?
      && var left := Residuals.Measured(gaps, secondary, threshold).value;
      Forward(gaps) && Forward(left) && Within(left, gaps)
  {
    hide Reconcile.Partition, Residuals.Measured, Reconcile.TsOf, Within, Forward, Reconcile.WithinHour;
    Reconcile.WitnessedPlaced(primary, secondary, threshold, hourStart, hourEnd);
    var gaps := Reconcile.Partition(primary, secondary, threshold, hourStart, hourEnd).value.0;
    Residuals.DetectPredictsMint(primary, secondary, threshold, hourStart, hourEnd);
    PlacedForward(primary, gaps, hourStart, hourEnd);
    LeftInside(gaps, secondary, threshold);
  }

  lemma PlacedForward(primary: Rows, gaps: seq<Reconcile.Gap>, hourStart: int, hourEnd: int)
    requires Reconcile.Placed(primary, gaps, hourStart, hourEnd)
    ensures Forward(gaps)
  {
    hide Reconcile.TsOf;
  }

  lemma LeftInside(gaps: seq<Reconcile.Gap>, secondary: Rows, threshold: int)
    requires threshold >= 0 && Reconcile.NonDecreasing(secondary) && Forward(gaps)
    ensures var left := Residuals.Measured(gaps, secondary, threshold);
      left.Ok? && Forward(left.value) && Within(left.value, gaps)
  {
    hide Reconcile.TsOf, Reconcile.Stamps, Residuals.Residual, Sorting.Ascending;
    if gaps != [] {
      Reconcile.StepwiseIsOrdered(secondary);
      Reconcile.StampsAreAscending(secondary);
      Residuals.ResidualSound(gaps, Reconcile.TsOf(secondary), threshold);
    }
  }

  // ---- what one heal books

  /** The measurement a heal books: of the witness, or of the minted hour. */
  function Entry(records: seq<L.Record>, mint: bool, pair: L.Pair, hour: int, gaps: seq<Reconcile.Gap>, left: seq<Reconcile.Gap>): L.Record {
    L.BookEntry(records, if mint then L.Minted else L.WouldMint, pair, hour, SpansOf(gaps), SpansOf(left))
  }

  /** What a heal books of the gaps a partition admits: the healed time is exactly the time of the gaps the measurement
      did not leave, the residual exactly the time it left that the fleet had not booked; neither is ever negative. */
  lemma EntryIsExact(records: seq<L.Record>, mint: bool, pair: L.Pair, primary: Rows, secondary: Rows, threshold: int, hour: int)
    requires threshold >= 0 && Reconcile.Partition(primary, secondary, threshold, hour, hour + HOUR).Ok?
    ensures var gaps := Reconcile.Partition(primary, secondary, threshold, hour, hour + HOUR).value.0;
      var left := Residuals.Measured(gaps, secondary, threshold).value;
      var r := Entry(records, mint, pair, hour, gaps, left);
      && r.claimed == |Covered(SpansOf(gaps))| && r.claimed == r.healed + |Covered(SpansOf(left))|
      && r.healed == |Covered(SpansOf(gaps)) - Covered(SpansOf(left))|
      && r.residual == |Covered(SpansOf(left)) - Covered(L.BookedDark(records, pair, hour))|
      && Disjoint(SpansOf(left)) && L.NoneNegative(r)
  {
    hide Reconcile.Partition, Residuals.Measured, Covered, Disjoint, Overlap, TotalLength, L.BookedDark;
    GapsMeasured(primary, secondary, threshold, hour, hour + HOUR);
    var gaps := Reconcile.Partition(primary, secondary, threshold, hour, hour + HOUR).value.0;
    var left := Residuals.Measured(gaps, secondary, threshold).value;
    SpansDisjoint(gaps);
    SpansDisjoint(left);
    SpansInside(left, gaps);
    DisjointTotal(SpansOf(gaps));
    DisjointTotal(SpansOf(left));
    BookedOnce(SpansOf(left), L.BookedDark(records, pair, hour));
    var g, h := Covered(SpansOf(gaps)), Covered(SpansOf(left));
    assert g == (g - h) + h;
  }

  // ---- one pair's hour

  function FailedRecord(pair: L.Pair, hour: int): L.Record {
    L.Record(L.Failed, Some(pair), L.Book, hour, 0, [], [], map[], L.NoVerdict, [], 0, 0, 0, 0, 0)
  }

  /** The windows no update witnessed: on record, and counted nowhere. */
  function UnwitnessedRecord(pair: L.Pair, hour: int): L.Record {
    L.Record(L.Unwitnessed, Some(pair), L.Book, hour, 0, [], [], map[], L.NoVerdict, [], 0, 0, 0, 0, 0)
  }

  function Ledgered(records: seq<L.Record>, r: L.Record): seq<L.Record> {
    if L.Decided(records, L.KeyOf(r)) then records else records + [r]
  }

  function HealedBook(records: seq<L.Record>, mint: bool, pair: L.Pair, hour: int, gaps: seq<Reconcile.Gap>, left: seq<Reconcile.Gap>): seq<L.Record> {
    if gaps == [] then records else records + [Entry(records, mint, pair, hour, gaps, left)]
  }

  /** The ledger after one pair's hour: whether detect-only or minted, the same gaps, measured the same. */
  function AfterHeal(records: seq<L.Record>, pair: L.Pair, primary: Rows, secondary: Rows, threshold: int, hour: int, mint: bool): seq<L.Record> {
    if L.Decided(records, L.Key(Some(pair), L.Book, hour, L.Minted)) then records
    else if !mint && L.Decided(records, L.Key(Some(pair), L.Book, hour, L.WouldMint)) then records
    else
      match Reconcile.Partition(primary, secondary, threshold, hour, hour + HOUR)
      case Err(_) => Ledgered(records, FailedRecord(pair, hour))
      case Ok((gaps, blind)) =>
        var noted := if blind == [] then records else Ledgered(records, UnwitnessedRecord(pair, hour));
        match Residuals.Measured(gaps, secondary, threshold)
        case Err(_) => noted
        case Ok(left) => HealedBook(noted, mint, pair, hour, gaps, left)
  }

  /** The gaps measured: on the witness, and again on the hour spliced from it when that is minted. */
  method Measure(primary: Rows, secondary: Rows, threshold: int, hour: int, gaps: seq<Reconcile.Gap>, mint: bool)
    returns (left: seq<Reconcile.Gap>, blocks: seq<Reconcile.Block>)
    requires threshold >= 0 && Reconcile.Partition(primary, secondary, threshold, hour, hour + HOUR).Ok?
    requires gaps == Reconcile.Partition(primary, secondary, threshold, hour, hour + HOUR).value.0
    ensures Residuals.Measured(gaps, secondary, threshold) == Ok(left)
    ensures mint ==> blocks == Reconcile.Spliced(primary, secondary, gaps)
  {
    hide Reconcile.Partition, Residuals.Measured, Reconcile.Spliced;
    GapsMeasured(primary, secondary, threshold, hour, hour + HOUR);
    var measured := Residuals.MeasureResidual(gaps, secondary, threshold);
    blocks := [];
    if mint {
      blocks := Reconcile.SpliceBook(primary, secondary, gaps);
      Residuals.DetectPredictsMint(primary, secondary, threshold, hour, hour + HOUR);
      measured := Residuals.MeasureResidual(gaps, Reconcile.Minted(blocks), threshold);
    }
    left := measured.value;
  }

  method HealHour(ledger: L.ReconcileLedger, pair: L.Pair, primary: Rows, secondary: Rows, threshold: int, hour: int, mint: bool)
    returns (blocks: seq<Reconcile.Block>)
    requires ledger.Valid() && threshold >= 0
    modifies ledger
    ensures ledger.Valid()
    ensures ledger.records == AfterHeal(old(ledger.records), pair, primary, secondary, threshold, hour, mint)
    ensures NothingFell(old(ledger.records), ledger.records)
  {
    hide Reconcile.Partition, Residuals.Measured, Reconcile.Spliced, Disjoint, L.BookEntry, L.AllBooked, L.Decided, NothingFell, Covered, L.Booked, L.NoneNegative, Entry;
    blocks := [];
    ghost var before := ledger.records;
    NothingFellAlone(before);
    if L.Key(Some(pair), L.Book, hour, L.Minted) in ledger.seen { return; }
    if !mint && L.Key(Some(pair), L.Book, hour, L.WouldMint) in ledger.seen { return; }
    var found := Reconcile.PartitionGaps(primary, secondary, threshold, hour, hour + HOUR);
    if found.Err? {
      Unmeasured(before, FailedRecord(pair, hour));
      ledger.Append(FailedRecord(pair, hour));
      return;
    }
    var (gaps, blind) := found.value;
    if blind != [] {
      Unmeasured(before, UnwitnessedRecord(pair, hour));
      ledger.Append(UnwitnessedRecord(pair, hour));
    }
    ghost var noted := ledger.records;
    StillUndecided(before, UnwitnessedRecord(pair, hour), L.Key(Some(pair), L.Book, hour, L.Minted));
    StillUndecided(before, UnwitnessedRecord(pair, hour), L.Key(Some(pair), L.Book, hour, L.WouldMint));
    var left;
    left, blocks := Measure(primary, secondary, threshold, hour, gaps, mint);
    if gaps == [] { return; }
    EntryAdds(noted, mint, pair, primary, secondary, threshold, hour);
    NothingFellThrough(before, noted, noted + [Entry(noted, mint, pair, hour, gaps, left)]);
    EntryIs(noted, mint, pair, hour, gaps, left);
    ledger.BookHeal(pair, hour, SpansOf(gaps), SpansOf(left), mint);
  }

  lemma EntryIs(records: seq<L.Record>, mint: bool, pair: L.Pair, hour: int, gaps: seq<Reconcile.Gap>, left: seq<Reconcile.Gap>)
    ensures Entry(records, mint, pair, hour, gaps, left)
      == L.BookEntry(records, if mint then L.Minted else L.WouldMint, pair, hour, SpansOf(gaps), SpansOf(left))
    ensures SpansOf(gaps) == [] ==> gaps == []
  {
  }

  lemma EntryAdds(records: seq<L.Record>, mint: bool, pair: L.Pair, primary: Rows, secondary: Rows, threshold: int, hour: int)
    requires threshold >= 0 && Reconcile.Partition(primary, secondary, threshold, hour, hour + HOUR).Ok?
    ensures var gaps := Reconcile.Partition(primary, secondary, threshold, hour, hour + HOUR).value.0;
      var left := Residuals.Measured(gaps, secondary, threshold);
      left.Ok? && Disjoint(SpansOf(left.value)) && NothingFell(records, records + [Entry(records, mint, pair, hour, gaps, left.value)])
  {
    hide Reconcile.Partition, Residuals.Measured, Covered, Disjoint, L.BookedDark, Entry, L.TotalsOf, L.AtLeast;
    GapsMeasured(primary, secondary, threshold, hour, hour + HOUR);
    EntryIsExact(records, mint, pair, primary, secondary, threshold, hour);
    var gaps := Reconcile.Partition(primary, secondary, threshold, hour, hour + HOUR).value.0;
    L.TotalsNeverFall(records, [Entry(records, mint, pair, hour, gaps, Residuals.Measured(gaps, secondary, threshold).value)]);
  }

  /** No total has fallen. */
  ghost predicate NothingFell(a: seq<L.Record>, b: seq<L.Record>) {
    L.AtLeast(L.TotalsOf(b), L.TotalsOf(a))
  }

  lemma NothingFellAlone(records: seq<L.Record>)
    ensures NothingFell(records, records)
  {
  }

  lemma NothingFellThrough(a: seq<L.Record>, b: seq<L.Record>, c: seq<L.Record>)
    requires NothingFell(a, b) && NothingFell(b, c)
    ensures NothingFell(a, c)
  {
    hide L.TotalsOf;
  }

  /** A record of the other families is always in form, and takes nothing back. */
  lemma Unmeasured(records: seq<L.Record>, r: L.Record)
    requires r.state == L.Failed || r.state == L.Unwitnessed
    requires L.NoneNegative(r)
    ensures L.Booked(records, r) && NothingFell(records, records + [r])
  {
    L.TotalsNeverFall(records, [r]);
  }

  lemma StillUndecided(records: seq<L.Record>, r: L.Record, key: L.Key)
    requires L.KeyOf(r) != key
    ensures L.Decided(Ledgered(records, r), key) <==> L.Decided(records, key)
  {
    L.DecidedSnoc(records, r);
  }

  // ---- the fleet's hour

  /** Windows in order, each forward, inside the hour. */
  ghost predicate InHour(windows: seq<Span>, lo: int, hi: int) {
    && (forall i :: 0 <= i < |windows| ==> lo <= windows[i].start < windows[i].end <= hi)
    && (forall i, j :: 0 <= i < j < |windows| ==> windows[i].end <= windows[j].start)
  }

  lemma {:induction false} WindowsInOrder(edges: seq<int>, threshold: int, n: nat)
    requires n < |edges| && Sorting.Ordered(edges) && threshold >= 0
    ensures InHour(Settle.WindowsBetween(edges, threshold, n), edges[0], edges[n])
  {
    if n > 0 {
      WindowsInOrder(edges, threshold, n - 1);
      Sorting.OrderedAt(edges, 0, n - 1);
      Sorting.OrderedAt(edges, n - 1, n);
    }
  }

  lemma FleetInOrder(fleet: seq<int>, lo: int, hi: int, threshold: int)
    requires lo <= hi && threshold >= 0
    ensures InHour(Settle.FleetDarkWindows(fleet, lo, hi, threshold), lo, hi)
  {
    hide InHour, Settle.WindowsBetween, Settle.Clamped, Sorting.Ascending;
    Settle.EdgesAre(fleet, lo, hi);
    var edges := Settle.Edges(fleet, lo, hi);
    WindowsInOrder(edges, threshold, |edges| - 1);
  }

  /** A stream whose two mirrors were both read, with stamps in them, books its own silences; any other books the
      fleet's windows. */
  function OwnWindows(stream: Option<seq<int>>, windows: seq<Span>, lo: int, hi: int): seq<Span>
    requires lo <= hi
  {
    match stream
    case None => windows
    case Some(stamps) => Settle.Own(stamps, windows, lo, hi)
  }

  lemma OwnDisjoint(stream: Option<seq<int>>, windows: seq<Span>, lo: int, hi: int)
    requires lo <= hi && InHour(windows, lo, hi)
    ensures Disjoint(OwnWindows(stream, windows, lo, hi))
  {
    hide Settle.Own, TotalLength, Covered;
    if stream.Some? {
      Settle.OwnNeverExceedsHour(stream.value, windows, lo, hi);
    }
  }

  method CollectOwn(stream: Option<seq<int>>, windows: seq<Span>, lo: int, hi: int) returns (own: seq<Span>)
    requires lo <= hi && InHour(windows, lo, hi)
    ensures own == OwnWindows(stream, windows, lo, hi)
  {
    hide Settle.ContainingDarkWindow;
    own := [];
    var i := 0;
    while i < |windows|
      invariant 0 <= i <= |windows|
      invariant own == OwnWindows(stream, windows[..i], lo, hi)
    {
      var w := windows[i];
      var c := if stream.Some? then Settle.ContainingDarkWindow(stream.value, w, lo, hi) else Some(w);
      assert windows[..i + 1][..i] == windows[..i];
      assert stream.None? ==> w !in windows[..i];
      if c.Some? && c.value !in own {
        own := own + [c.value];
      }
      i := i + 1;
    }
    assert windows[..i] == windows;
  }

  type Streams = map<L.Pair, Option<seq<int>>>

  function OwnMap(present: seq<L.Pair>, streams: Streams, windows: seq<Span>, hour: int): map<L.Pair, seq<Span>>
    requires forall i :: 0 <= i < |present| ==> present[i] in streams
  {
    map p | p in present :: OwnWindows(streams[p], windows, hour, hour + HOUR)
  }

  method CollectAll(present: seq<L.Pair>, streams: Streams, windows: seq<Span>, hour: int) returns (own: map<L.Pair, seq<Span>>)
    requires forall i :: 0 <= i < |present| ==> present[i] in streams
    requires InHour(windows, hour, hour + HOUR)
    ensures own == OwnMap(present, streams, windows, hour)
    ensures forall i :: 0 <= i < |present| ==> present[i] in own && Disjoint(own[present[i]])
  {
    hide OwnWindows, InHour, Disjoint;
    own := map[];
    var i := 0;
    while i < |present|
      invariant 0 <= i <= |present|
      invariant own == OwnMap(present[..i], streams, windows, hour)
      invariant forall k :: 0 <= k < i ==> Disjoint(OwnWindows(streams[present[k]], windows, hour, hour + HOUR))
    {
      var mine := CollectOwn(streams[present[i]], windows, hour, hour + HOUR);
      OwnDisjoint(streams[present[i]], windows, hour, hour + HOUR);
      assert forall p :: p in present[..i + 1] <==> p in present[..i] || p == present[i];
      own := own[present[i] := mine];
      i := i + 1;
    }
    assert present[..i] == present;
  }

  /** The ledger after the fleet's hour, decided once. */
  function AfterDark(records: seq<L.Record>, hour: int, present: seq<L.Pair>, fleet: seq<int>, streams: Streams, threshold: int, verdict: L.Verdict): seq<L.Record>
    requires forall i :: 0 <= i < |present| ==> present[i] in streams
  {
    var windows := Settle.FleetDarkWindows(fleet, hour, hour + HOUR, threshold);
    if windows == [] || L.Decided(records, L.Key(None, L.Book, hour, L.BothStreamsSilent)) then records
    else records + [L.DarkRecord(records, hour, present, windows, OwnMap(present, streams, windows, hour), verdict)]
  }

  lemma NobodyDark(records: seq<L.Record>, hour: int, own: map<L.Pair, seq<Span>>)
    ensures L.DarkResidual(records, hour, [], own) == 0
  {
  }

  /** What the fleet's hour books is in form, and takes nothing back. */
  lemma DarkAdds(records: seq<L.Record>, hour: int, present: seq<L.Pair>, windows: seq<Span>, own: map<L.Pair, seq<Span>>, verdict: L.Verdict)
    requires L.AllBooked(records) && L.Distinct(present)
    requires forall i :: 0 <= i < |present| ==> present[i] in own && Disjoint(own[present[i]])
    requires !L.Decided(records, L.Key(None, L.Book, hour, L.BothStreamsSilent))
    ensures NothingFell(records, records + [L.DarkRecord(records, hour, present, windows, own, verdict)])
  {
    hide Disjoint, L.DarkResidual, L.AllBooked, L.Decided, L.Distinct;
    var r := L.DarkRecord(records, hour, present, windows, own, verdict);
    L.DarkUndecided(records, hour);
    L.DarkBooked(records, hour, present, windows, own, verdict);
    if present == [] { NobodyDark(records, hour, own); } else { L.BookedNeverNegative(records, r); }
    L.TotalsNeverFall(records, [r]);
  }

  method DarkHour(ledger: L.ReconcileLedger, hour: int, present: seq<L.Pair>, fleet: seq<int>, streams: Streams, threshold: int, verdict: L.Verdict)
    requires ledger.Valid() && threshold >= 0 && L.Distinct(present)
    requires forall i :: 0 <= i < |present| ==> present[i] in streams
    modifies ledger
    ensures ledger.Valid()
    ensures ledger.records == AfterDark(old(ledger.records), hour, present, fleet, streams, threshold, verdict)
    ensures NothingFell(old(ledger.records), ledger.records)
  {
    hide Disjoint, L.AllBooked, L.Decided, NothingFell, OwnMap, InHour, Settle.FleetDarkWindows, L.DarkRecord;
    ghost var before := ledger.records;
    NothingFellAlone(before);
    var windows := Settle.FleetDarkWindows(fleet, hour, hour + HOUR, threshold);
    FleetInOrder(fleet, hour, hour + HOUR, threshold);
    var own := CollectAll(present, streams, windows, hour);
    if windows != [] && L.Key(None, L.Book, hour, L.BothStreamsSilent) !in ledger.seen {
      DarkAdds(before, hour, present, windows, own, verdict);
    }
    ledger.BookDark(hour, present, windows, own, verdict);
  }

  // ---- the whole hour

  /** One mirror's book segment of an hour. */
  datatype Mirror = Absent | Unreadable | Read(rows: Rows)

  datatype BookHour = BookHour(pair: L.Pair, primary: Mirror, secondary: Mirror)

  ghost predicate OnePerPair(books: seq<BookHour>) {
    forall i, j :: 0 <= i < j < |books| ==> books[i].pair != books[j].pair
  }

  predicate Torn(b: BookHour) {
    b.primary.Unreadable? || b.secondary.Unreadable?
  }

  predicate Seen(b: BookHour) {
    b.primary.Read? || b.secondary.Read?
  }

  function TsSeq(rows: Rows): seq<int> {
    seq(|rows|, i requires 0 <= i < |rows| => rows[i].ts)
  }

  function Ticks(m: Mirror): seq<int> {
    if m.Read? then TsSeq(m.rows) else []
  }

  function Present(books: seq<BookHour>): seq<L.Pair> {
    if books == [] then []
    else Present(books[..|books| - 1]) + if Seen(books[|books| - 1]) then [books[|books| - 1].pair] else []
  }

  /** Every stamp of every mirror of every stream. */
  function FleetTicks(books: seq<BookHour>): seq<int> {
    if books == [] then []
    else FleetTicks(books[..|books| - 1]) + Ticks(books[|books| - 1].primary) + Ticks(books[|books| - 1].secondary)
  }

  function StreamTicks(b: BookHour): Option<seq<int>> {
    var ticks := Ticks(b.primary) + Ticks(b.secondary);
    if b.primary.Read? && b.secondary.Read? && ticks != [] then Some(ticks) else None
  }

  function StreamsOf(books: seq<BookHour>): Streams {
    if books == [] then map[]
    else StreamsOf(books[..|books| - 1])[books[|books| - 1].pair := StreamTicks(books[|books| - 1])]
  }

  function AfterReads(records: seq<L.Record>, books: seq<BookHour>, hour: int): seq<L.Record> {
    if books == [] then records
    else
      var b, before := books[|books| - 1], AfterReads(records, books[..|books| - 1], hour);
      if Torn(b) then Ledgered(before, FailedRecord(b.pair, hour)) else before
  }

  predicate AnyTorn(books: seq<BookHour>) {
    exists i :: 0 <= i < |books| && Torn(books[i])
  }

  lemma {:induction false} PresentSeen(books: seq<BookHour>)
    requires OnePerPair(books)
    ensures L.Distinct(Present(books))
    ensures forall p :: p in Present(books) ==> p in StreamsOf(books) && exists i :: 0 <= i < |books| && books[i].pair == p
  {
    if books != [] {
      var n := |books| - 1;
      PresentSeen(books[..n]);
      assert forall i :: 0 <= i < n ==> books[..n][i] == books[i];
      forall p | p in Present(books) ensures p in StreamsOf(books) && exists i :: 0 <= i < |books| && books[i].pair == p {
        if p in Present(books[..n]) {
          var i :| 0 <= i < n && books[..n][i].pair == p;
          assert books[i].pair == p;
        } else {
          assert books[n].pair == p;
        }
      }
      assert books[n].pair !in Present(books[..n]);
    }
  }

  /** Unsynchronised or torn, an hour is not judged: its darkness waits for a cycle that reads everything. */
  function AfterFleet(records: seq<L.Record>, books: seq<BookHour>, threshold: int, hour: int, verdict: L.Verdict): seq<L.Record>
    requires OnePerPair(books)
  {
    PresentSeen(books);
    if Present(books) == [] || AnyTorn(books) then records
    else AfterDark(records, hour, Present(books), FleetTicks(books), StreamsOf(books), threshold, verdict)
  }

  /** One stream healed, if it has a witness and is not minted already; a primary that never came is healed whole. */
  function AfterBook(records: seq<L.Record>, b: BookHour, threshold: int, hour: int, mint: bool, late: bool, onDisk: set<L.Pair>): seq<L.Record> {
    if !b.secondary.Read? || b.pair in onDisk || b.primary.Unreadable? || (b.primary.Absent? && !late) then records
    else AfterHeal(records, b.pair, if b.primary.Read? then b.primary.rows else [], b.secondary.rows, threshold, hour, mint)
  }

  function AfterBooks(records: seq<L.Record>, books: seq<BookHour>, threshold: int, hour: int, mint: bool, late: bool, onDisk: set<L.Pair>): seq<L.Record> {
    if books == [] then records
    else AfterBook(AfterBooks(records, books[..|books| - 1], threshold, hour, mint, late, onDisk), books[|books| - 1], threshold, hour, mint, late, onDisk)
  }

  function AfterHour(records: seq<L.Record>, books: seq<BookHour>, threshold: int, hour: int, verdict: L.Verdict, mint: bool, late: bool, onDisk: set<L.Pair>): seq<L.Record>
    requires OnePerPair(books)
  {
    AfterBooks(AfterFleet(AfterReads(records, books, hour), books, threshold, hour, verdict), books, threshold, hour, mint, late, onDisk)
  }

  method ReadHour(ledger: L.ReconcileLedger, books: seq<BookHour>, hour: int)
    requires ledger.Valid()
    modifies ledger
    ensures ledger.Valid() && ledger.records == AfterReads(old(ledger.records), books, hour)
    ensures NothingFell(old(ledger.records), ledger.records)
  {
    hide L.AllBooked, NothingFell, L.Booked, L.Decided, FailedRecord;
    var i := 0;
    NothingFellAlone(ledger.records);
    while i < |books|
      invariant 0 <= i <= |books|
      invariant ledger.Valid() && ledger.records == AfterReads(old(ledger.records), books[..i], hour)
      invariant NothingFell(old(ledger.records), ledger.records)
    {
      assert books[..i + 1][..i] == books[..i];
      if Torn(books[i]) {
        FailedIs(books[i].pair, hour);
        Unmeasured(ledger.records, FailedRecord(books[i].pair, hour));
        NothingFellThrough(old(ledger.records), ledger.records, ledger.records + [FailedRecord(books[i].pair, hour)]);
        ledger.Append(FailedRecord(books[i].pair, hour));
      }
      i := i + 1;
    }
    assert books[..i] == books;
  }

  lemma FailedIs(pair: L.Pair, hour: int)
    ensures FailedRecord(pair, hour).state == L.Failed && L.NoneNegative(FailedRecord(pair, hour))
  {
  }

  /** One hour of a cycle, torn and absent segments included: the ledger is the one the steps name, no total has
      fallen, and the residual counts every lost microsecond of every stream once. */
  method ReconcileHour(ledger: L.ReconcileLedger, books: seq<BookHour>, threshold: int, hour: int, verdict: L.Verdict, mint: bool, late: bool, onDisk: set<L.Pair>)
    requires ledger.Valid() && threshold >= 0 && OnePerPair(books)
    modifies ledger
    ensures ledger.Valid()
    ensures ledger.records == AfterHour(old(ledger.records), books, threshold, hour, verdict, mint, late, onDisk)
    ensures NothingFell(old(ledger.records), ledger.records)
    ensures L.TotalsOf(ledger.records).residual == |L.Losses(ledger.records)| + L.Elsewhere(ledger.records)
  {
    hide L.AllBooked, NothingFell, AfterHeal, AfterDark, L.TotalsOf, L.Losses, L.Elsewhere;
    ghost var before := ledger.records;
    ReadHour(ledger, books, hour);
    ghost var noted := ledger.records;
    PresentSeen(books);
    if Present(books) != [] && !AnyTorn(books) {
      DarkHour(ledger, hour, Present(books), FleetTicks(books), StreamsOf(books), threshold, verdict);
      NothingFellThrough(before, noted, ledger.records);
    }
    ghost var dark := ledger.records;
    HealBooks(ledger, books, threshold, hour, mint, late, onDisk);
    NothingFellThrough(before, dark, ledger.records);
    L.EveryLossOnce(ledger.records);
  }

  method HealBooks(ledger: L.ReconcileLedger, books: seq<BookHour>, threshold: int, hour: int, mint: bool, late: bool, onDisk: set<L.Pair>)
    requires ledger.Valid() && threshold >= 0
    modifies ledger
    ensures ledger.Valid() && ledger.records == AfterBooks(old(ledger.records), books, threshold, hour, mint, late, onDisk)
    ensures NothingFell(old(ledger.records), ledger.records)
  {
    hide L.AllBooked, NothingFell, AfterHeal, L.Decided;
    var i := 0;
    NothingFellAlone(ledger.records);
    while i < |books|
      invariant 0 <= i <= |books|
      invariant ledger.Valid() && ledger.records == AfterBooks(old(ledger.records), books[..i], threshold, hour, mint, late, onDisk)
      invariant NothingFell(old(ledger.records), ledger.records)
    {
      assert books[..i + 1][..i] == books[..i];
      var b := books[i];
      if b.secondary.Read? && b.pair !in onDisk && !b.primary.Unreadable? && (b.primary.Read? || late) {
        ghost var noted := ledger.records;
        var blocks := HealHour(ledger, b.pair, if b.primary.Read? then b.primary.rows else [], b.secondary.rows, threshold, hour, mint);
        NothingFellThrough(old(ledger.records), noted, ledger.records);
      }
      i := i + 1;
    }
    assert books[..i] == books;
  }
}
