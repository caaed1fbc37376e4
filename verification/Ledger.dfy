/** The append-only reconciliation ledger of `cli/archive/command.py`: what is booked, when, and what the totals make
    of it. Seconds are whole microseconds. */
module Ledger {
  import opened Prelude
  import opened Spans

  /** A pair of the universe, by number. */
  type Pair = int

  datatype Kind = Book | Trades

  datatype State = BothStreamsSilent | TotalLoss | Failed | Unwitnessed | WouldMint | Minted | TradeDeficit

  datatype Verdict = VenueSilent | CaptureDivergent | Undetermined | Unrecognised | NoVerdict

  /** `pair` is None for the whole fleet; a field a record does not carry is zero or empty. */
  datatype Record = Record(
    state: State,
    pair: Option<Pair>,
    kind: Kind,
    hour: int,
    residual: int,
    pairs: seq<Pair>,
    windows: seq<Span>,
    streamWindows: map<Pair, seq<Span>>,
    verdict: Verdict,
    residualGaps: seq<Span>,
    claimed: int,
    healed: int,
    tradesAdded: int,
    tradesDeficit: int,
    tradesDeduped: int)

  predicate MintFamily(state: State) {
    state == Minted || state == WouldMint || state == TradeDeficit
  }

  // ---- what the ledger shows already booked

  /** What a fleet record booked for one stream; a record older than the split booked the intersection. */
  function BookedFor(r: Record, pair: Pair): seq<Span> {
    if pair in r.streamWindows then r.streamWindows[pair] else r.windows
  }

  predicate DarkFor(r: Record, pair: Pair, hour: int) {
    r.state == BothStreamsSilent && r.hour == hour && pair in r.pairs
  }

  function BookedDark(records: seq<Record>, pair: Pair, hour: int): seq<Span> {
    if records == [] then []
    else
      var last := records[|records| - 1];
      BookedDark(records[..|records| - 1], pair, hour) + if DarkFor(last, pair, hour) then BookedFor(last, pair) else []
  }

  predicate HealOf(r: Record, pair: Pair, hour: int) {
    r.kind == Book && r.pair == Some(pair) && r.hour == hour && (r.state == Minted || r.state == WouldMint)
  }

  /** The residual of the first heal. */
  function BookedResidual(records: seq<Record>, pair: Pair, hour: int): seq<Span> {
    if records == [] then []
    else if HealOf(records[0], pair, hour) then records[0].residualGaps
    else BookedResidual(records[1..], pair, hour)
  }

  predicate HealedBefore(records: seq<Record>, pair: Pair, hour: int) {
    exists i :: 0 <= i < |records| && HealOf(records[i], pair, hour)
  }

  // ---- the totals

  datatype Totals = Totals(
    splicedHours: int,
    unionHours: int,
    healed: int,
    healable: int,
    residual: int,
    deficitPrimary: int,
    deficitSecondary: int,
    dedupRows: int,
    ledgerRecords: int,
    darkVenueSilent: int,
    darkCaptureDivergent: int,
    darkUndetermined: int)

  const NOTHING: Totals := Totals(0, 0, 0, 0, 0, 0, 0, 0, 0, 0, 0, 0)

  predicate SameDecision(a: Record, b: Record) {
    a.pair == b.pair && a.kind == b.kind && a.hour == b.hour
  }

  /** No decision of the mint family before `r` is about the same pair, kind and hour. */
  predicate FirstDecision(before: seq<Record>, r: Record) {
    forall i :: 0 <= i < |before| && MintFamily(before[i].state) ==> !SameDecision(before[i], r)
  }

  /** What one record adds, behind the records before it. */
  function Contribution(before: seq<Record>, r: Record): Totals {
    var first := MintFamily(r.state) && FirstDecision(before, r);
    var dark := r.state == BothStreamsSilent;
    Totals(
      if r.state == Minted && r.kind == Book then 1 else 0,
      if r.state == Minted && r.kind == Trades then 1 else 0,
      if r.state == Minted then r.healed else 0,
      if first then if r.claimed != 0 then r.claimed else r.healed else 0,
      if !MintFamily(r.state) || first then r.residual else 0,
      if first then r.tradesAdded else 0,
      if first then r.tradesDeficit else 0,
      if first then r.tradesDeduped else 0,
      1,
      if dark && r.verdict == VenueSilent then r.residual else 0,
      if dark && r.verdict == CaptureDivergent then r.residual else 0,
      if dark && r.verdict != VenueSilent && r.verdict != CaptureDivergent then r.residual else 0)
  }

  function Sum(a: Totals, b: Totals): Totals {
    Totals(
      a.splicedHours + b.splicedHours, a.unionHours + b.unionHours, a.healed + b.healed, a.healable + b.healable,
      a.residual + b.residual, a.deficitPrimary + b.deficitPrimary, a.deficitSecondary + b.deficitSecondary,
      a.dedupRows + b.dedupRows, a.ledgerRecords + b.ledgerRecords, a.darkVenueSilent + b.darkVenueSilent,
      a.darkCaptureDivergent + b.darkCaptureDivergent, a.darkUndetermined + b.darkUndetermined)
  }

  function TotalsOf(records: seq<Record>): Totals {
    if records == [] then NOTHING
    else
      var before, last := records[..|records| - 1], records[|records| - 1];
      Sum(TotalsOf(before), Contribution(before, last))
  }

  /** The (pair, kind, hour) a mint-family record is counted under. */
  function MeasureKey(r: Record): (Option<Pair>, Kind, int) {
    (r.pair, r.kind, r.hour)
  }

  lemma MeasuredMeansFirst(before: seq<Record>, measured: set<(Option<Pair>, Kind, int)>, r: Record)
    requires forall k :: k in measured <==> exists i :: 0 <= i < |before| && MintFamily(before[i].state) && MeasureKey(before[i]) == k
    ensures MeasureKey(r) in measured <==> !FirstDecision(before, r)
  {
  }

  /** The exporter's counters, in one pass over the ledger. */
  method ComputeTotals(records: seq<Record>) returns (t: Totals)
    ensures t == TotalsOf(records)
  {
    hide TotalsOf;
    t := NOTHING;
    TotalsNone();
    var measured: set<(Option<Pair>, Kind, int)> := {};
    var i := 0;
    assert records[..|records|] == records && records[..0] == [];
    while i < |records|
      invariant 0 <= i <= |records|
      invariant forall k :: k in measured <==> exists j :: 0 <= j < i && MintFamily(records[j].state) && MeasureKey(records[j]) == k
      invariant t == TotalsOf(records[..i])
    {
      var r := records[i];
      TotalsSnoc(records[..i], r);
      MeasuredMeansFirst(records[..i], measured, r);
      assert records[..i + 1] == records[..i] + [r];
      t := t.(ledgerRecords := t.ledgerRecords + 1);
      if !MintFamily(r.state) {
        t := t.(residual := t.residual + r.residual);
      }
      if r.state == BothStreamsSilent {
        match r.verdict {
          case VenueSilent => t := t.(darkVenueSilent := t.darkVenueSilent + r.residual);
          case CaptureDivergent => t := t.(darkCaptureDivergent := t.darkCaptureDivergent + r.residual);
          case _ => t := t.(darkUndetermined := t.darkUndetermined + r.residual);
        }
      }
      if r.state == Minted {
        t := t.(healed := t.healed + r.healed);
        if r.kind == Book {
          t := t.(splicedHours := t.splicedHours + 1);
        } else {
          t := t.(unionHours := t.unionHours + 1);
        }
      }
      if MintFamily(r.state) && MeasureKey(r) !in measured {
        measured := measured + {MeasureKey(r)};
        t := t.(
          residual := t.residual + r.residual,
          healable := t.healable + (if r.claimed != 0 then r.claimed else r.healed),
          deficitPrimary := t.deficitPrimary + r.tradesAdded,
          deficitSecondary := t.deficitSecondary + r.tradesDeficit,
          dedupRows := t.dedupRows + r.tradesDeduped);
      }
      i := i + 1;
    }
  }

  lemma TotalsNone()
    ensures TotalsOf([]) == NOTHING
  {
  }

  lemma TotalsSnoc(records: seq<Record>, r: Record)
    ensures TotalsOf(records + [r]) == Sum(TotalsOf(records), Contribution(records, r))
  {
    assert (records + [r])[..|records|] == records;
  }

  // ---- monotone

  predicate NoneNegative(r: Record) {
    r.residual >= 0 && r.claimed >= 0 && r.healed >= 0 && r.tradesAdded >= 0 && r.tradesDeficit >= 0 && r.tradesDeduped >= 0
  }

  predicate AtLeast(a: Totals, b: Totals) {
    && a.splicedHours >= b.splicedHours && a.unionHours >= b.unionHours && a.healed >= b.healed && a.healable >= b.healable
    && a.residual >= b.residual && a.deficitPrimary >= b.deficitPrimary && a.deficitSecondary >= b.deficitSecondary
    && a.dedupRows >= b.dedupRows && a.ledgerRecords >= b.ledgerRecords && a.darkVenueSilent >= b.darkVenueSilent
    && a.darkCaptureDivergent >= b.darkCaptureDivergent && a.darkUndetermined >= b.darkUndetermined
  }

  lemma ContributionNeverNegative(before: seq<Record>, r: Record)
    requires NoneNegative(r)
    ensures AtLeast(Contribution(before, r), NOTHING)
  {
    hide FirstDecision;
  }

  lemma SumAtLeast(a: Totals, b: Totals, c: Totals)
    requires AtLeast(a, c) && AtLeast(b, NOTHING)
    ensures AtLeast(Sum(a, b), c)
  {
  }

  /** No counter ever falls as the ledger grows. */
  lemma {:induction false} TotalsNeverFall(records: seq<Record>, more: seq<Record>)
    requires forall i :: 0 <= i < |more| ==> NoneNegative(more[i])
    ensures AtLeast(TotalsOf(records + more), TotalsOf(records))
  {
    if more == [] {
      assert records + more == records;
    } else {
      hide Contribution, TotalsOf, Sum, NoneNegative;
      var n := |more| - 1;
      var front := records + more[..n];
      TotalsNeverFall(records, more[..n]);
      TotalsSnoc(front, more[n]);
      assert records + more == front + [more[n]];
      ContributionNeverNegative(front, more[n]);
      SumAtLeast(TotalsOf(front), Contribution(front, more[n]), TotalsOf(records));
    }
  }

  // ---- every lost microsecond, once

  /** One lost microsecond of one stream. */
  datatype Loss = Loss(pair: Pair, hour: int, at: int)

  function LossIn(pair: Pair, hour: int, points: set<int>): (losses: set<Loss>)
    ensures forall l :: l in losses <==> l.pair == pair && l.hour == hour && l.at in points
  {
    set t | t in points :: Loss(pair, hour, t)
  }

  lemma {:induction false} LossCount(pair: Pair, hour: int, points: set<int>)
    ensures |LossIn(pair, hour, points)| == |points|
    decreases |points|
  {
    if points == {} {
      assert LossIn(pair, hour, points) == {};
    } else {
      assert (forall t :: t !in points) ==> points == {};
      var t :| t in points;
      LossCount(pair, hour, points - {t});
      assert LossIn(pair, hour, points) == LossIn(pair, hour, points - {t}) + {Loss(pair, hour, t)};
    }
  }

  /** What the ledger says one stream lost in one hour. */
  function LostOf(records: seq<Record>, pair: Pair, hour: int): set<int> {
    Covered(BookedDark(records, pair, hour)) + Covered(BookedResidual(records, pair, hour))
  }

  /** What one record adds to what was lost. */
  function Newly(before: seq<Record>, r: Record): set<Loss> {
    if r.state == BothStreamsSilent then FleetLosses(r, r.pairs)
    else if r.kind == Book && r.pair.Some? && HealOf(r, r.pair.value, r.hour) && !HealedBefore(before, r.pair.value, r.hour)
    then LossIn(r.pair.value, r.hour, Covered(r.residualGaps))
    else {}
  }

  function FleetLosses(r: Record, pairs: seq<Pair>): set<Loss> {
    if pairs == [] then {}
    else
      var p := pairs[|pairs| - 1];
      FleetLosses(r, pairs[..|pairs| - 1]) + LossIn(p, r.hour, Covered(BookedFor(r, p)))
  }

  function Losses(records: seq<Record>): set<Loss> {
    if records == [] then {}
    else Losses(records[..|records| - 1]) + Newly(records[..|records| - 1], records[|records| - 1])
  }

  lemma {:induction false} FleetLossesAre(r: Record, pairs: seq<Pair>, l: Loss)
    ensures l in FleetLosses(r, pairs) <==> l.pair in pairs && l.hour == r.hour && l.at in Covered(BookedFor(r, l.pair))
  {
    hide Covered, BookedFor;
    if pairs != [] {
      var n := |pairs| - 1;
      FleetLossesAre(r, pairs[..n], l);
      assert l.pair in pairs <==> l.pair in pairs[..n] || l.pair == pairs[n] by { assert pairs == pairs[..n] + [pairs[n]]; }
    }
  }

  lemma {:induction false} CoveredOfSum(a: seq<Span>, b: seq<Span>)
    ensures Covered(a + b) == Covered(a) + Covered(b)
  {
    hide Points;
    if b == [] {
      assert a + b == a;
    } else {
      CoveredOfSum(a, b[..|b| - 1]);
      assert (a + b)[..|a + b| - 1] == a + b[..|b| - 1];
    }
  }

  lemma {:induction false} BookedResidualSnoc(records: seq<Record>, r: Record, pair: Pair, hour: int)
    ensures BookedResidual(records + [r], pair, hour) ==
      if HealedBefore(records, pair, hour) then BookedResidual(records, pair, hour)
      else if HealOf(r, pair, hour) then r.residualGaps
      else []
    ensures !HealedBefore(records, pair, hour) ==> BookedResidual(records, pair, hour) == []
  {
    if records == [] {
      assert records + [r] == [r];
    } else if !HealOf(records[0], pair, hour) {
      BookedResidualSnoc(records[1..], r, pair, hour);
      assert (records + [r])[1..] == records[1..] + [r];
      assert HealedBefore(records, pair, hour) <==> HealedBefore(records[1..], pair, hour) by {
        if i :| 0 <= i < |records| && HealOf(records[i], pair, hour) { assert HealOf(records[1..][i - 1], pair, hour); }
        if i :| 0 <= i < |records| - 1 && HealOf(records[1..][i], pair, hour) { assert HealOf(records[i + 1], pair, hour); }
      }
    }
  }

  /** One record more, read at one stream and hour. */
  lemma LostSnoc(records: seq<Record>, r: Record, pair: Pair, hour: int)
    ensures LostOf(records + [r], pair, hour) == LostOf(records, pair, hour)
      + (if DarkFor(r, pair, hour) then Covered(BookedFor(r, pair)) else {})
      + (if HealOf(r, pair, hour) && !HealedBefore(records, pair, hour) then Covered(r.residualGaps) else {})
  {
    hide Covered, BookedResidual;
    assert (records + [r])[..|records|] == records;
    var dark := BookedDark(records, pair, hour);
    CoveredOfSum(dark, if DarkFor(r, pair, hour) then BookedFor(r, pair) else []);
    BookedResidualSnoc(records, r, pair, hour);
    CoversNothing();
  }

  lemma CoversNothing()
    ensures Covered([]) == {}
  {
  }

  /** The losses a ledger accumulates are, stream by stream and hour by hour, what its dark windows and its first
      heal's residual cover together. */
  lemma {:induction false} LossesAre(records: seq<Record>, l: Loss)
    ensures l in Losses(records) <==> l.at in LostOf(records, l.pair, l.hour)
  {
    hide Covered, BookedResidual, BookedFor, LostOf;
    if records == [] {
      LostNone(l.pair, l.hour);
    } else {
      var before, r := records[..|records| - 1], records[|records| - 1];
      LossesAre(before, l);
      assert records == before + [r];
      LostSnoc(before, r, l.pair, l.hour);
      FleetLossesAre(r, r.pairs, l);
    }
  }

  lemma LostNone(pair: Pair, hour: int)
    ensures LostOf([], pair, hour) == {}
  {
    assert BookedDark([], pair, hour) == [];
  }

  // ---- records as they are booked

  predicate Distinct(pairs: seq<Pair>) {
    forall i, j :: 0 <= i < j < |pairs| ==> pairs[i] != pairs[j]
  }

  /** What a fleet record books: each stream's own windows, less what its book record already booked. */
  function DarkResidual(records: seq<Record>, hour: int, pairs: seq<Pair>, own: map<Pair, seq<Span>>): int
    requires forall i :: 0 <= i < |pairs| ==> pairs[i] in own
  {
    if pairs == [] then 0
    else
      var p := pairs[|pairs| - 1];
      DarkResidual(records, hour, pairs[..|pairs| - 1], own)
        + (TotalLength(own[p]) - Overlap(BookedResidual(records, p, hour), own[p]))
  }

  function DarkRecord(records: seq<Record>, hour: int, pairs: seq<Pair>, windows: seq<Span>, own: map<Pair, seq<Span>>, verdict: Verdict): Record
    requires forall i :: 0 <= i < |pairs| ==> pairs[i] in own
  {
    Record(
      BothStreamsSilent, None, Book, hour, DarkResidual(records, hour, pairs, own), pairs, windows, own, verdict, [], 0, 0, 0, 0, 0)
  }

  /** What a heal books: what its splice left unfilled, less what the fleet record already booked. */
  function BookEntry(records: seq<Record>, state: State, pair: Pair, hour: int, gaps: seq<Span>, residualGaps: seq<Span>): Record {
    var claimed, unfilled := TotalLength(gaps), TotalLength(residualGaps);
    Record(
      state, Some(pair), Book, hour, unfilled - Overlap(residualGaps, BookedDark(records, pair, hour)), [], [], map[],
      NoVerdict, residualGaps, claimed, claimed - unfilled, 0, 0, 0)
  }

  /** What a fleet record booked, stream by stream. */
  function OwnOf(r: Record): map<Pair, seq<Span>> {
    map p | p in r.pairs :: BookedFor(r, p)
  }

  /** A record that books time of streams it names: the fleet's, or a book hour's heal. */
  predicate Books(r: Record) {
    (r.state == BothStreamsSilent && r.pairs != []) || (MintFamily(r.state) && r.kind == Book)
  }

  /** A record as this ledger writes it or once wrote it, behind the records before it: a fleet record without windows of
      its own for a stream booked the intersection, one that names no stream states what it states, a heal without
      residual windows booked nothing. */
  ghost predicate Booked(before: seq<Record>, r: Record) {
    if r.state == BothStreamsSilent then
      && r.pair == None && r.kind == Book
      && Distinct(r.pairs)
      && (forall i :: 0 <= i < |r.pairs| ==> Disjoint(BookedFor(r, r.pairs[i])))
      && (forall i :: 0 <= i < |before| ==> !(before[i].state == BothStreamsSilent && before[i].hour == r.hour))
      && (r.pairs != [] ==> r.residual == DarkResidual(before, r.hour, r.pairs, OwnOf(r)))
    else if MintFamily(r.state) && r.kind == Book then
      && r.pair.Some? && r.state != TradeDeficit
      && Disjoint(r.residualGaps)
      && r.residual == TotalLength(r.residualGaps) - Overlap(r.residualGaps, BookedDark(before, r.pair.value, r.hour))
    else true
  }

  ghost predicate AllBooked(records: seq<Record>) {
    forall i :: 0 <= i < |records| ==> Booked(records[..i], records[i])
  }

  /** What the remaining records add to the residual: whole hours lost on both mirrors, trades, and fleet records that name
      no stream. */
  function Elsewhere(records: seq<Record>): int {
    if records == [] then 0
    else
      var before, r := records[..|records| - 1], records[|records| - 1];
      Elsewhere(before)
        + if Books(r) then 0 else Contribution(before, r).residual
  }

  lemma {:induction false} DarkResidualSame(records: seq<Record>, hour: int, pairs: seq<Pair>, own: map<Pair, seq<Span>>, other: map<Pair, seq<Span>>)
    requires forall i :: 0 <= i < |pairs| ==> pairs[i] in own && pairs[i] in other && own[pairs[i]] == other[pairs[i]]
    ensures DarkResidual(records, hour, pairs, own) == DarkResidual(records, hour, pairs, other)
  {
    if pairs != [] {
      DarkResidualSame(records, hour, pairs[..|pairs| - 1], own, other);
    }
  }

  /** The record the fleet's hour is booked as is in form. */
  lemma DarkBooked(records: seq<Record>, hour: int, pairs: seq<Pair>, windows: seq<Span>, own: map<Pair, seq<Span>>, verdict: Verdict)
    requires Distinct(pairs) && forall i :: 0 <= i < |pairs| ==> pairs[i] in own && Disjoint(own[pairs[i]])
    requires forall i :: 0 <= i < |records| ==> !(records[i].state == BothStreamsSilent && records[i].hour == hour)
    ensures Booked(records, DarkRecord(records, hour, pairs, windows, own, verdict))
  {
    hide Disjoint, DarkResidual, Overlap;
    DarkResidualSame(records, hour, pairs, own, OwnOf(DarkRecord(records, hour, pairs, windows, own, verdict)));
  }

  lemma OverlapMeets(spans: seq<Span>, windows: seq<Span>)
    requires Disjoint(spans) && Disjoint(windows)
    ensures TotalLength(windows) - Overlap(spans, windows) == |Covered(windows) - Covered(spans)|
  {
    DisjointTotal(windows);
    DisjointOverlap(spans, windows);
    hide Covered;
    var w, s := Covered(windows), Covered(spans);
    assert w == (w - s) + (s * w);
  }

  /** A fleet record books, over all its streams, exactly what they had not booked before. */
  lemma {:induction false} DarkAddsNew(before: seq<Record>, r: Record, pairs: seq<Pair>)
    requires Distinct(pairs)
    requires forall i :: 0 <= i < |pairs| ==> pairs[i] in r.pairs && Disjoint(BookedFor(r, pairs[i]))
    requires forall i :: 0 <= i < |pairs| ==> Disjoint(BookedResidual(before, pairs[i], r.hour))
    requires forall i :: 0 <= i < |pairs| ==> Covered(BookedDark(before, pairs[i], r.hour)) == {}
    ensures DarkResidual(before, r.hour, pairs, OwnOf(r)) == |FleetLosses(r, pairs) - Losses(before)|
  {
    hide Covered, BookedResidual, Overlap, Disjoint, Losses, BookedDark;
    if pairs == [] {
      assert FleetLosses(r, pairs) - Losses(before) == {};
    } else {
      var n := |pairs| - 1;
      var p := pairs[n];
      DarkAddsNew(before, r, pairs[..n]);
      StreamAddsNew(before, r, p);
      var mine := LossIn(p, r.hour, Covered(BookedFor(r, p)));
      hide LossIn;
      StreamsApart(r, pairs, before);
      assert FleetLosses(r, pairs) - Losses(before) == (FleetLosses(r, pairs[..n]) - Losses(before)) + (mine - Losses(before));
    }
  }

  lemma StreamsApart(r: Record, pairs: seq<Pair>, before: seq<Record>)
    requires pairs != [] && Distinct(pairs)
    ensures var p := pairs[|pairs| - 1];
      (FleetLosses(r, pairs[..|pairs| - 1]) - Losses(before)) * (LossIn(p, r.hour, Covered(BookedFor(r, p))) - Losses(before)) == {}
  {
    hide Losses, Covered, BookedFor, FleetLosses;
    var n := |pairs| - 1;
    var mine := LossIn(pairs[n], r.hour, Covered(BookedFor(r, pairs[n])));
    forall l | l in FleetLosses(r, pairs[..n]) ensures l !in mine {
      FleetLossesAre(r, pairs[..n], l);
      assert l.pair != pairs[n];
    }
  }

  /** One stream's share of a fleet record. */
  lemma StreamAddsNew(before: seq<Record>, r: Record, p: Pair)
    requires Disjoint(BookedFor(r, p)) && Disjoint(BookedResidual(before, p, r.hour))
    requires Covered(BookedDark(before, p, r.hour)) == {}
    ensures TotalLength(BookedFor(r, p)) - Overlap(BookedResidual(before, p, r.hour), BookedFor(r, p))
      == |LossIn(p, r.hour, Covered(BookedFor(r, p))) - Losses(before)|
  {
    hide Covered, BookedResidual, Overlap, Disjoint, Losses, BookedDark, BookedFor;
    var own, booked := Covered(BookedFor(r, p)), Covered(BookedResidual(before, p, r.hour));
    OverlapMeets(BookedResidual(before, p, r.hour), BookedFor(r, p));
    LossCount(p, r.hour, own - booked);
    forall l ensures l in LossIn(p, r.hour, own) - Losses(before) <==> l in LossIn(p, r.hour, own - booked) {
      LossesAre(before, l);
    }
    assert LossIn(p, r.hour, own) - Losses(before) == LossIn(p, r.hour, own - booked);
  }

  lemma {:induction false} NoDarkBooked(records: seq<Record>, pair: Pair, hour: int)
    requires forall i :: 0 <= i < |records| ==> !(records[i].state == BothStreamsSilent && records[i].hour == hour)
    ensures BookedDark(records, pair, hour) == []
  {
    if records != [] {
      NoDarkBooked(records[..|records| - 1], pair, hour);
    }
  }

  /** A first heal books exactly what the fleet had not booked before. */
  lemma HealAddsNew(before: seq<Record>, r: Record)
    requires r.pair.Some? && Disjoint(r.residualGaps)
    requires r.residual == TotalLength(r.residualGaps) - Overlap(r.residualGaps, BookedDark(before, r.pair.value, r.hour))
    requires !HealedBefore(before, r.pair.value, r.hour)
    ensures r.residual == |LossIn(r.pair.value, r.hour, Covered(r.residualGaps)) - Losses(before)|
  {
    hide Covered, BookedResidual, Overlap, Disjoint, Losses, BookedDark;
    var pair := r.pair.value;
    var mine, booked := Covered(r.residualGaps), Covered(BookedDark(before, pair, r.hour));
    BookedOnce(r.residualGaps, BookedDark(before, pair, r.hour));
    BookedResidualSnoc(before, r, pair, r.hour);
    CoversNothing();
    LossCount(pair, r.hour, mine - booked);
    forall l ensures l in LossIn(pair, r.hour, mine) - Losses(before) <==> l in LossIn(pair, r.hour, mine - booked) {
      LossesAre(before, l);
    }
    assert LossIn(pair, r.hour, mine) - Losses(before) == LossIn(pair, r.hour, mine - booked);
  }

  lemma AllBookedFront(records: seq<Record>, r: Record)
    ensures AllBooked(records + [r]) <==> AllBooked(records) && Booked(records, r)
  {
    hide Booked;
    var more := records + [r];
    assert more[..|records|] == records && more[|records|] == r;
    if AllBooked(more) {
      assert Booked(more[..|records|], more[|records|]);
      forall i | 0 <= i < |records| ensures Booked(records[..i], records[i]) {
        assert Booked(more[..i], more[i]);
        assert more[..i] == records[..i];
      }
    }
    if AllBooked(records) && Booked(records, r) {
      forall i | 0 <= i < |more| ensures Booked(more[..i], more[i]) {
        if i < |records| { assert more[..i] == records[..i]; }
      }
    }
  }

  /** The residual a ledger has booked for a heal is windows that share nothing. */
  lemma {:induction false} ResidualsDisjoint(records: seq<Record>, pair: Pair, hour: int)
    requires AllBooked(records)
    ensures Disjoint(BookedResidual(records, pair, hour))
  {
    hide Disjoint, Overlap, BookedDark, BookedResidual;
    if records == [] {
      NoneDisjoint(pair, hour);
    } else {
      var before, r := records[..|records| - 1], records[|records| - 1];
      assert records == before + [r];
      AllBookedFront(before, r);
      ResidualsDisjoint(before, pair, hour);
      BookedResidualSnoc(before, r, pair, hour);
    }
  }

  lemma NoneDisjoint(pair: Pair, hour: int)
    ensures Disjoint(BookedResidual([], pair, hour))
  {
  }

  /** A mint-family book record is the first about its pair and hour exactly when nothing healed them before. */
  lemma FirstIsUnhealed(before: seq<Record>, r: Record)
    requires AllBooked(before)
    requires r.kind == Book && r.pair.Some? && (r.state == Minted || r.state == WouldMint)
    ensures FirstDecision(before, r) <==> !HealedBefore(before, r.pair.value, r.hour)
  {
    hide Disjoint, Overlap, BookedDark;
    forall i | 0 <= i < |before|
      ensures MintFamily(before[i].state) && SameDecision(before[i], r) <==> HealOf(before[i], r.pair.value, r.hour)
    {
      assert Booked(before[..i], before[i]);
    }
  }

  /** What one record adds to the residual is the number of microseconds nothing had booked before it. */
  lemma RecordAddsNew(before: seq<Record>, r: Record)
    requires AllBooked(before) && Booked(before, r)
    requires Books(r)
    ensures Contribution(before, r).residual == |Newly(before, r) - Losses(before)|
  {
    hide Covered, BookedResidual, Overlap, Disjoint, Losses, BookedDark, LossIn;
    if r.state == BothStreamsSilent {
      forall i | 0 <= i < |r.pairs| ensures Covered(BookedDark(before, r.pairs[i], r.hour)) == {} {
        NoDarkBooked(before, r.pairs[i], r.hour);
        CoversNothing();
      }
      forall i | 0 <= i < |r.pairs| ensures Disjoint(BookedResidual(before, r.pairs[i], r.hour)) {
        ResidualsDisjoint(before, r.pairs[i], r.hour);
      }
      DarkAddsNew(before, r, r.pairs);
    } else {
      FirstIsUnhealed(before, r);
      if FirstDecision(before, r) {
        HealAddsNew(before, r);
      } else {
        assert Newly(before, r) - Losses(before) == {};
      }
    }
  }

  /** Neither subtraction can go below zero: what a fleet record or a heal books is never negative. */
  lemma BookedNeverNegative(before: seq<Record>, r: Record)
    requires AllBooked(before) && Booked(before, r)
    requires Books(r)
    ensures r.residual >= 0
  {
    hide Covered, BookedResidual, Overlap, Disjoint, BookedDark, TotalLength, Losses, Newly;
    if r.state == BothStreamsSilent {
      RecordAddsNew(before, r);
    } else {
      BookedOnce(r.residualGaps, BookedDark(before, r.pair.value, r.hour));
    }
  }

  /** Over any ledger this system can have written, in whatever order fleet and heals were decided and however often a
      heal was decided again, the residual total counts every lost microsecond of every stream once: it is the size of
      the union of all that was booked as lost, plus what the other records state. */
  lemma {:induction false} EveryLossOnce(records: seq<Record>)
    requires AllBooked(records)
    ensures TotalsOf(records).residual == |Losses(records)| + Elsewhere(records)
  {
    hide Booked, Newly, Contribution;
    if records != [] {
      var before, r := records[..|records| - 1], records[|records| - 1];
      assert Booked(before, r);
      assert records == before + [r];
      AllBookedFront(before, r);
      EveryLossOnce(before);
      var added := Newly(before, r) - Losses(before);
      assert Losses(records) == Losses(before) + added;
      if Books(r) {
        RecordAddsNew(before, r);
      } else {
        assert Newly(before, r) == {} by { NewlyNothing(before, r); }
        assert added == {};
      }
    }
  }

  lemma NewlyNothing(before: seq<Record>, r: Record)
    requires !Books(r)
    ensures Newly(before, r) == {}
  {
  }

  /** The order of decisions does not matter: two ledgers that say the same was lost count the same. */
  lemma SameLossesSameResidual(a: seq<Record>, b: seq<Record>)
    requires AllBooked(a) && AllBooked(b)
    requires forall pair: Pair, hour: int :: LostOf(a, pair, hour) == LostOf(b, pair, hour)
    requires Elsewhere(a) == Elsewhere(b)
    ensures TotalsOf(a).residual == TotalsOf(b).residual
  {
    hide TotalsOf, Losses, LostOf, AllBooked, Elsewhere;
    EveryLossOnce(a);
    EveryLossOnce(b);
    forall l ensures l in Losses(a) <==> l in Losses(b) {
      LossesAre(a, l);
      LossesAre(b, l);
    }
    assert Losses(a) == Losses(b);
  }

  // ---- the ledger itself

  datatype Key = Key(pair: Option<Pair>, kind: Kind, hour: int, state: State)

  function KeyOf(r: Record): Key {
    Key(r.pair, r.kind, r.hour, r.state)
  }

  /** `mark` would be decided by one of the records. */
  predicate Decided(records: seq<Record>, key: Key) {
    exists i :: 0 <= i < |records| && KeyOf(records[i]) == key
  }

  class ReconcileLedger {
    var records: seq<Record>
    var seen: set<Key>

    ghost predicate Valid()
      reads this
    {
      AllBooked(records) && forall key :: key in seen <==> Decided(records, key)
    }

    constructor (loaded: seq<Record>)
      requires AllBooked(loaded)
      ensures Valid() && records == loaded
    {
      records := loaded;
      seen := set i | 0 <= i < |loaded| :: KeyOf(loaded[i]);
    }

    /** A decision already in the ledger is not appended again. */
    method Append(r: Record)
      requires Valid()
      requires !Decided(records, KeyOf(r)) ==> Booked(records, r)
      modifies this
      ensures Valid()
      ensures records == if old(Decided(records, KeyOf(r))) then old(records) else old(records) + [r]
    {
      if KeyOf(r) in seen { return; }
      AllBookedFront(records, r);
      DecidedSnoc(records, r);
      seen := seen + {KeyOf(r)};
      records := records + [r];
    }

    /** The hour's fleet-wide darkness, once: each stream its own windows. */
    method BookDark(hour: int, present: seq<Pair>, windows: seq<Span>, own: map<Pair, seq<Span>>, verdict: Verdict)
      requires Valid() && Distinct(present)
      requires forall i :: 0 <= i < |present| ==> present[i] in own && Disjoint(own[present[i]])
      modifies this
      ensures Valid()
      ensures records ==
        if windows == [] || old(Decided(records, Key(None, Book, hour, BothStreamsSilent))) then old(records)
        else old(records) + [DarkRecord(old(records), hour, present, windows, own, verdict)]
    {
      hide Overlap, Disjoint, BookedResidual, TotalLength;
      var key := Key(None, Book, hour, BothStreamsSilent);
      if windows == [] || key in seen { return; }
      var residual := 0;
      var i := 0;
      DarkResidualNone(records, hour, own);
      assert present[..|present|] == present && present[..0] == [];
      while i < |present|
        invariant 0 <= i <= |present|
        invariant records == old(records) && seen == old(seen)
        invariant residual == DarkResidual(records, hour, present[..i], own)
      {
        var already := OverlapSeconds(BookedResidual(records, present[i], hour), own[present[i]]);
        DarkResidualSnoc(records, hour, present, own, i);
        residual := residual + (TotalLength(own[present[i]]) - already);
        i := i + 1;
      }
      var r := Record(BothStreamsSilent, None, Book, hour, residual, present, windows, own, verdict, [], 0, 0, 0, 0, 0);
      DarkUndecided(records, hour);
      DarkBooked(records, hour, present, windows, own, verdict);
      Append(r);
    }

    /** One heal: decided by the mint, or by detect-only once; the first of them is the measurement. */
    method BookHeal(pair: Pair, hour: int, gaps: seq<Span>, residualGaps: seq<Span>, mint: bool)
      requires Valid() && Disjoint(residualGaps)
      modifies this
      ensures Valid()
      ensures records ==
        if old(Decided(records, Key(Some(pair), Book, hour, Minted))) || gaps == []
          || (!mint && old(Decided(records, Key(Some(pair), Book, hour, WouldMint)))) then old(records)
        else old(records) + [BookEntry(old(records), if mint then Minted else WouldMint, pair, hour, gaps, residualGaps)]
    {
      hide Overlap, Disjoint, BookedDark, TotalLength;
      if Key(Some(pair), Book, hour, Minted) in seen || gaps == [] { return; }
      if !mint && Key(Some(pair), Book, hour, WouldMint) in seen { return; }
      var claimed, unfilled := TotalLength(gaps), TotalLength(residualGaps);
      var already := OverlapSeconds(residualGaps, BookedDark(records, pair, hour));
      var r := Record(
        if mint then Minted else WouldMint, Some(pair), Book, hour, unfilled - already, [], [], map[], NoVerdict,
        residualGaps, claimed, claimed - unfilled, 0, 0, 0);
      assert r == BookEntry(records, r.state, pair, hour, gaps, residualGaps);
      Append(r);
    }
  }

  lemma DecidedSnoc(records: seq<Record>, r: Record)
    ensures forall key :: Decided(records + [r], key) <==> Decided(records, key) || key == KeyOf(r)
  {
    var more := records + [r];
    forall key ensures Decided(more, key) <==> Decided(records, key) || key == KeyOf(r) {
      if i :| 0 <= i < |records| && KeyOf(records[i]) == key { assert KeyOf(more[i]) == key; }
      assert KeyOf(more[|records|]) == KeyOf(r);
    }
  }

  lemma DarkResidualNone(records: seq<Record>, hour: int, own: map<Pair, seq<Span>>)
    ensures DarkResidual(records, hour, [], own) == 0
  {
  }

  lemma DarkResidualSnoc(records: seq<Record>, hour: int, pairs: seq<Pair>, own: map<Pair, seq<Span>>, i: nat)
    requires i < |pairs| && forall k :: 0 <= k < |pairs| ==> pairs[k] in own
    ensures DarkResidual(records, hour, pairs[..i + 1], own) == DarkResidual(records, hour, pairs[..i], own)
      + (TotalLength(own[pairs[i]]) - Overlap(BookedResidual(records, pairs[i], hour), own[pairs[i]]))
  {
    assert pairs[..i + 1][..i] == pairs[..i];
  }

  lemma DarkUndecided(records: seq<Record>, hour: int)
    requires AllBooked(records) && !Decided(records, Key(None, Book, hour, BothStreamsSilent))
    ensures forall i :: 0 <= i < |records| ==> !(records[i].state == BothStreamsSilent && records[i].hour == hour)
  {
    hide Disjoint, Overlap, BookedDark;
    forall i | 0 <= i < |records| ensures !(records[i].state == BothStreamsSilent && records[i].hour == hour) {
      assert Booked(records[..i], records[i]);
      assert KeyOf(records[i]) != Key(None, Book, hour, BothStreamsSilent);
    }
  }

  // ---- either order, and the flip from detect-only to mint

  lemma LostNothing(records: seq<Record>, pair: Pair, hour: int)
    requires forall i :: 0 <= i < |records| ==> !(records[i].state == BothStreamsSilent && records[i].hour == hour)
    requires !HealedBefore(records, pair, hour)
    ensures LostOf(records, pair, hour) == {}
  {
    hide Covered, BookedResidual, BookedDark;
    NoDarkBooked(records, pair, hour);
    if records == [] {
      LostNone(pair, hour);
      BookedResidualNone(pair, hour);
    } else {
      BookedResidualSnoc(records, records[0], pair, hour);
    }
    CoversNothing();
  }

  lemma BookedResidualNone(pair: Pair, hour: int)
    ensures BookedResidual([], pair, hour) == []
  {
  }

  /** A fleet record for `pair` alone, or a heal of it. */
  ghost predicate About(r: Record, pair: Pair, hour: int) {
    || (r.state == BothStreamsSilent && r.hour == hour && r.pairs == [pair] && pair in r.streamWindows)
    || (HealOf(r, pair, hour))
  }

  function Lost(r: Record, pair: Pair): set<int> {
    if r.state == BothStreamsSilent then Covered(BookedFor(r, pair)) else Covered(r.residualGaps)
  }

  lemma OneMore(records: seq<Record>, r: Record, pair: Pair, hour: int)
    requires About(r, pair, hour) && (HealOf(r, pair, hour) ==> !HealedBefore(records, pair, hour))
    ensures forall p, h :: LostOf(records + [r], p, h) == LostOf(records, p, h) + if p == pair && h == hour then Lost(r, pair) else {}
    ensures Elsewhere(records + [r]) == Elsewhere(records)
  {
    hide Covered, LostOf, BookedFor;
    assert (records + [r])[..|records|] == records;
    forall p, h ensures LostOf(records + [r], p, h) == LostOf(records, p, h) + if p == pair && h == hour then Lost(r, pair) else {} {
      LostSnoc(records, r, p, h);
    }
  }

  lemma TwoMore(records: seq<Record>, a: Record, b: Record, pair: Pair, hour: int)
    requires AllBooked(records) && AllBooked(records + [a] + [b])
    requires LostOf(records, pair, hour) == {}
    requires About(a, pair, hour) && About(b, pair, hour) && a.state != b.state && !HealedBefore(records, pair, hour)
    requires HealOf(b, pair, hour) ==> !HealedBefore(records + [a], pair, hour)
    ensures TotalsOf(records + [a] + [b]).residual == TotalsOf(records).residual + |Lost(a, pair) + Lost(b, pair)|
  {
    hide TotalsOf, Losses, LostOf, AllBooked, Elsewhere, Lost, About, HealOf, HealedBefore;
    EveryLossOnce(records);
    EveryLossOnce(records + [a] + [b]);
    OneMore(records, a, pair, hour);
    OneMore(records + [a], b, pair, hour);
    var points := Lost(a, pair) + Lost(b, pair);
    var after := records + [a] + [b];
    forall l ensures l in Losses(after) <==> l in Losses(records) + LossIn(pair, hour, points) {
      LossesAre(records, l);
      LossesAre(after, l);
    }
    assert Losses(after) == Losses(records) + LossIn(pair, hour, points);
    assert Losses(records) * LossIn(pair, hour, points) == {} by {
      forall l | l in Losses(records) ensures l !in LossIn(pair, hour, points) {
        LossesAre(records, l);
      }
    }
    LossCount(pair, hour, points);
  }

  function DarkOf(records: seq<Record>, hour: int, pair: Pair, own: seq<Span>, verdict: Verdict): Record {
    DarkRecord(records, hour, [pair], own, map[pair := own], verdict)
  }

  ghost predicate Unbooked(records: seq<Record>, pair: Pair, hour: int) {
    && AllBooked(records)
    && !Decided(records, Key(None, Book, hour, BothStreamsSilent))
    && !HealedBefore(records, pair, hour)
  }

  lemma DarkThenHeal(records: seq<Record>, hour: int, pair: Pair, own: seq<Span>, verdict: Verdict, state: State, gaps: seq<Span>, residualGaps: seq<Span>)
    requires Unbooked(records, pair, hour)
    requires Disjoint(own) && Disjoint(residualGaps) && (state == Minted || state == WouldMint)
    ensures var dark := DarkOf(records, hour, pair, own, verdict);
      TotalsOf(records + [dark] + [BookEntry(records + [dark], state, pair, hour, gaps, residualGaps)]).residual ==
        TotalsOf(records).residual + |Covered(own) + Covered(residualGaps)|
  {
    hide Overlap, Disjoint, Covered, TotalsOf, AllBooked, BookedDark, BookedResidual, DarkResidual, TotalLength;
    DarkUndecided(records, hour);
    var dark := DarkOf(records, hour, pair, own, verdict);
    var heal := BookEntry(records + [dark], state, pair, hour, gaps, residualGaps);
    DarkBooked(records, hour, [pair], own, map[pair := own], verdict);
    AllBookedFront(records, dark);
    AllBookedFront(records + [dark], heal);
    LostNothing(records, pair, hour);
    UnhealedStill(records, dark, pair, hour);
    TwoMore(records, dark, heal, pair, hour);
  }

  lemma HealThenDark(records: seq<Record>, hour: int, pair: Pair, own: seq<Span>, verdict: Verdict, state: State, gaps: seq<Span>, residualGaps: seq<Span>)
    requires Unbooked(records, pair, hour)
    requires Disjoint(own) && Disjoint(residualGaps) && (state == Minted || state == WouldMint)
    ensures var heal := BookEntry(records, state, pair, hour, gaps, residualGaps);
      TotalsOf(records + [heal] + [DarkOf(records + [heal], hour, pair, own, verdict)]).residual ==
        TotalsOf(records).residual + |Covered(residualGaps) + Covered(own)|
  {
    hide Overlap, Disjoint, Covered, TotalsOf, AllBooked, BookedDark, BookedResidual, DarkResidual, TotalLength;
    DarkUndecided(records, hour);
    var heal := BookEntry(records, state, pair, hour, gaps, residualGaps);
    var dark := DarkOf(records + [heal], hour, pair, own, verdict);
    DarkBooked(records + [heal], hour, [pair], own, map[pair := own], verdict);
    AllBookedFront(records, heal);
    AllBookedFront(records + [heal], dark);
    LostNothing(records, pair, hour);
    TwoMore(records, heal, dark, pair, hour);
  }

  /** For one stream and hour nothing is booked about yet: whichever of the fleet record and the heal is ledgered
      first, the two together add to the residual the same, every microsecond either of them covers. */
  lemma EitherOrder(records: seq<Record>, hour: int, pair: Pair, own: seq<Span>, verdict: Verdict, state: State, gaps: seq<Span>, residualGaps: seq<Span>)
    requires Unbooked(records, pair, hour)
    requires Disjoint(own) && Disjoint(residualGaps) && (state == Minted || state == WouldMint)
    ensures var dark, heal := DarkOf(records, hour, pair, own, verdict), BookEntry(records, state, pair, hour, gaps, residualGaps);
      var darkFirst := records + [dark] + [BookEntry(records + [dark], state, pair, hour, gaps, residualGaps)];
      var healFirst := records + [heal] + [DarkOf(records + [heal], hour, pair, own, verdict)];
      && TotalsOf(darkFirst).residual == TotalsOf(records).residual + |Covered(own) + Covered(residualGaps)|
      && TotalsOf(healFirst).residual == TotalsOf(darkFirst).residual
  {
    hide Covered, TotalsOf, DarkOf, BookEntry, Unbooked, Disjoint;
    DarkThenHeal(records, hour, pair, own, verdict, state, gaps, residualGaps);
    HealThenDark(records, hour, pair, own, verdict, state, gaps, residualGaps);
    assert Covered(own) + Covered(residualGaps) == Covered(residualGaps) + Covered(own);
  }

  lemma UnhealedStill(records: seq<Record>, r: Record, pair: Pair, hour: int)
    requires !HealedBefore(records, pair, hour) && !HealOf(r, pair, hour)
    ensures !HealedBefore(records + [r], pair, hour)
  {
  }

  /** An hour decided in detect-only and minted after the flip is one measurement: the second record adds nothing to
      the residual nor to the gap rate. */
  lemma FlipAddsNothing(records: seq<Record>, pair: Pair, hour: int, r: Record)
    requires AllBooked(records) && HealedBefore(records, pair, hour) && HealOf(r, pair, hour)
    ensures TotalsOf(records + [r]).residual == TotalsOf(records).residual
    ensures TotalsOf(records + [r]).healable == TotalsOf(records).healable
  {
    hide TotalsOf, Booked;
    TotalsSnoc(records, r);
    FirstIsUnhealed(records, r);
  }
}
