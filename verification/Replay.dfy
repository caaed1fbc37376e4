/** Incremental verification of the canonical archive, `cli/archive/replay.py`: the chain verdict and the checkpointed
    sweep. Hours are counted, one apart. */
module Replay {
  import opened Prelude
  import opened Sorting

  type Pair = int

  /** The bytes of a segment. */
  datatype Content = Content(n: int)

  /** SHA-256, taken as injective. */
  datatype Digest = Sha256(content: Content)

  datatype Error = Unreadable | NoSidecar(under: Option<Error>) | SidecarDiffers(under: Option<Error>) | Replaying(n: int)

  /** What a replay finds in one hour, before the chain verdict. */
  datatype Facts = Facts(
    rows: nat,
    messages: nat,
    opensWithSnapshot: bool,
    tsOrdered: bool,
    checksumPresent: bool,
    replayOk: bool,
    error: Option<Error>)

  datatype ReplayResult = ReplayResult(
    pair: Pair,
    hour: Option<int>,
    rows: nat,
    messages: nat,
    anchored: bool,
    tsOrdered: bool,
    checksumPresent: bool,
    replayOk: bool,
    error: Option<Error>)

  // ---- the chain verdict

  function PrevHour(results: seq<ReplayResult>, pair: Pair): Option<int> {
    if results == [] then None
    else
      var last := results[|results| - 1];
      if last.pair == pair then last.hour else PrevHour(results[..|results| - 1], pair)
  }

  /** The chain's verdict on the last of `results`, each judged behind the one before it of its pair. */
  function Verdict(results: seq<ReplayResult>): bool
    requires results != []
    decreases |results|, 0
  {
    var last := results[|results| - 1];
    last.anchored || (last.hour.Some? && PrevHour(results[..|results| - 1], last.pair) == Some(last.hour.value - 1)
      && PrevOk(results[..|results| - 1], last.pair))
  }

  function PrevOk(results: seq<ReplayResult>, pair: Pair): bool
    decreases |results|, 1
  {
    if results == [] then false
    else
      var last := results[|results| - 1];
      if last.pair == pair then Verdict(results) && last.error.None? else PrevOk(results[..|results| - 1], pair)
  }

  function Chained(results: seq<ReplayResult>): seq<ReplayResult> {
    if results == [] then []
    else
      Chained(results[..|results| - 1]) + [results[|results| - 1].(anchored := Verdict(results))]
  }

  method ChainAnchor(results: seq<ReplayResult>) returns (chained: seq<ReplayResult>)
    ensures chained == Chained(results)
  {
    chained := [];
    var prevHour: map<Pair, Option<int>> := map[];
    var prevOk: map<Pair, bool> := map[];
    assert results[..|results|] == results && results[..0] == [];
    var i := 0;
    while i < |results|
      invariant 0 <= i <= |results|
      invariant chained == Chained(results[..i])
      invariant forall p :: (if p in prevHour then prevHour[p] else None) == PrevHour(results[..i], p)
      invariant forall p :: (if p in prevOk then prevOk[p] else false) == PrevOk(results[..i], p)
    {
      var r := results[i];
      assert results[..i + 1][..i] == results[..i];
      var predecessor := if r.pair in prevHour then prevHour[r.pair] else None;
      var contiguous := r.hour.Some? && predecessor.Some? && r.hour.value == predecessor.value + 1;
      var anchored := r.anchored || (contiguous && (if r.pair in prevOk then prevOk[r.pair] else false));
      chained := chained + [if anchored == r.anchored then r else r.(anchored := anchored)];
      prevHour := prevHour[r.pair := r.hour];
      prevOk := prevOk[r.pair := anchored && r.error.None?];
      i := i + 1;
    }
  }

  /** Results as the archive's enumeration gives them: every hour known, and each pair's hours rising. */
  ghost predicate Enumerated(results: seq<ReplayResult>) {
    && (forall i :: 0 <= i < |results| ==> results[i].hour.Some?)
    && (forall i, j :: 0 <= i < j < |results| && results[i].pair == results[j].pair ==> results[i].hour.value < results[j].hour.value)
  }

  ghost predicate Present(results: seq<ReplayResult>, i: nat, pair: Pair, hour: int) {
    i < |results| && results[i].pair == pair && results[i].hour == Some(hour)
  }

  ghost predicate Opens(results: seq<ReplayResult>, pair: Pair, hour: int) {
    exists i: nat :: Present(results, i, pair, hour) && results[i].anchored
  }

  ghost predicate Clean(results: seq<ReplayResult>, pair: Pair, hour: int) {
    exists i: nat :: Present(results, i, pair, hour) && results[i].error.None?
  }

  /** Some hour at or before this one opened with a snapshot, and every hour from it up to this one is there and
      without an error. */
  ghost predicate Anchored(results: seq<ReplayResult>, pair: Pair, hour: int) {
    exists h0 :: AnchoredFrom(results, pair, h0, hour)
  }

  ghost predicate AnchoredFrom(results: seq<ReplayResult>, pair: Pair, h0: int, hour: int) {
    h0 <= hour && Opens(results, pair, h0) && forall g :: h0 <= g < hour ==> Clean(results, pair, g)
  }

  /** Hours before the last one of a pair are the same in the front. */
  lemma SameBefore(results: seq<ReplayResult>, pair: Pair, hour: int)
    requires Enumerated(results) && results != []
    requires var last := results[|results| - 1]; last.pair == pair ==> hour < last.hour.value
    ensures Opens(results, pair, hour) <==> Opens(results[..|results| - 1], pair, hour)
    ensures Clean(results, pair, hour) <==> Clean(results[..|results| - 1], pair, hour)
  {
    var front := results[..|results| - 1];
    forall i: nat ensures Present(results, i, pair, hour) <==> Present(front, i, pair, hour) {}
  }

  lemma {:induction false} AnchoredBefore(results: seq<ReplayResult>, pair: Pair, hour: int)
    requires Enumerated(results) && results != []
    requires var last := results[|results| - 1]; last.pair == pair ==> hour < last.hour.value
    ensures Anchored(results, pair, hour) <==> Anchored(results[..|results| - 1], pair, hour)
  {
    hide Opens, Clean;
    var front := results[..|results| - 1];
    forall h0 ensures AnchoredFrom(results, pair, h0, hour) <==> AnchoredFrom(front, pair, h0, hour) {
      if h0 <= hour {
        SameBefore(results, pair, h0);
        forall g | h0 <= g < hour ensures Clean(results, pair, g) <==> Clean(front, pair, g) {
          SameBefore(results, pair, g);
        }
      }
    }
  }

  /** One hour further: opened here, or anchored and clean the hour before. */
  lemma AnchoredStep(results: seq<ReplayResult>, pair: Pair, hour: int)
    ensures Anchored(results, pair, hour) <==>
      Opens(results, pair, hour) || (Anchored(results, pair, hour - 1) && Clean(results, pair, hour - 1))
  {
    hide Opens, Clean;
    if Anchored(results, pair, hour) && !Opens(results, pair, hour) {
      var h0 :| AnchoredFrom(results, pair, h0, hour);
      assert AnchoredFrom(results, pair, h0, hour - 1);
    }
    if Opens(results, pair, hour) {
      assert AnchoredFrom(results, pair, hour, hour);
    }
    if Anchored(results, pair, hour - 1) && Clean(results, pair, hour - 1) {
      var h0 :| AnchoredFrom(results, pair, h0, hour - 1);
      assert AnchoredFrom(results, pair, h0, hour);
    }
  }

  lemma Once(results: seq<ReplayResult>, i: nat)
    requires Enumerated(results) && i < |results|
    ensures Opens(results, results[i].pair, results[i].hour.value) <==> results[i].anchored
    ensures Clean(results, results[i].pair, results[i].hour.value) <==> results[i].error.None?
  {
    assert Present(results, i, results[i].pair, results[i].hour.value);
  }

  lemma FrontEnumerated(results: seq<ReplayResult>, n: nat)
    requires Enumerated(results) && n <= |results|
    ensures Enumerated(results[..n])
  {
  }

  /** The previous hour of a pair is anchored, clean and the one before, exactly when the fold says so. */
  lemma {:induction false} PrevOkMeans(results: seq<ReplayResult>, pair: Pair, hour: int)
    requires Enumerated(results)
    requires forall i :: 0 <= i < |results| && results[i].pair == pair ==> results[i].hour.value < hour
    ensures PrevHour(results, pair) == Some(hour - 1) && PrevOk(results, pair) <==>
      Anchored(results, pair, hour - 1) && Clean(results, pair, hour - 1)
    decreases |results|, 1
  {
    hide Anchored, Verdict;
    if results == [] {
      assert !Clean(results, pair, hour - 1);
    } else {
      var n := |results| - 1;
      var last := results[n];
      FrontEnumerated(results, n);
      if last.pair == pair {
        VerdictMeans(results);
        Once(results, n);
        if last.hour.value != hour - 1 {
          assert !Clean(results, pair, hour - 1);
        }
      } else {
        PrevOkMeans(results[..n], pair, hour);
        AnchoredBefore(results, pair, hour - 1);
        SameBefore(results, pair, hour - 1);
      }
    }
  }

  lemma {:induction false} VerdictMeans(results: seq<ReplayResult>)
    requires Enumerated(results) && results != []
    ensures Verdict(results) <==> Anchored(results, results[|results| - 1].pair, results[|results| - 1].hour.value)
    decreases |results|, 0
  {
    hide Anchored, PrevHour, PrevOk;
    var n := |results| - 1;
    var last := results[n];
    var hour := last.hour.value;
    FrontEnumerated(results, n);
    PrevOkMeans(results[..n], last.pair, hour);
    Once(results, n);
    AnchoredStep(results, last.pair, hour);
    AnchoredBefore(results, last.pair, hour - 1);
    SameBefore(results, last.pair, hour - 1);
  }

  /** Hours after this one change nothing about it. */
  lemma {:induction false} AnchoredThen(results: seq<ReplayResult>, i: nat)
    requires Enumerated(results) && i < |results|
    ensures Anchored(results, results[i].pair, results[i].hour.value) <==> Anchored(results[..i + 1], results[i].pair, results[i].hour.value)
    decreases |results|
  {
    hide Anchored;
    if i + 1 < |results| {
      var n := |results| - 1;
      FrontEnumerated(results, n);
      AnchoredBefore(results, results[i].pair, results[i].hour.value);
      AnchoredThen(results[..n], i);
      assert results[..n][..i + 1] == results[..i + 1];
    } else {
      assert results[..i + 1] == results;
    }
  }

  lemma {:induction false} ChainedAt(results: seq<ReplayResult>, i: nat)
    requires i < |results|
    ensures |Chained(results)| == |results|
    ensures Chained(results)[i] == results[i].(anchored := Verdict(results[..i + 1]))
  {
    hide Verdict;
    var n := |results| - 1;
    if i < n {
      ChainedAt(results[..n], i);
      assert results[..n][..i + 1] == results[..i + 1];
    } else {
      ChainedLength(results[..n]);
      assert results[..i + 1] == results;
    }
  }

  lemma {:induction false} ChainedLength(results: seq<ReplayResult>)
    ensures |Chained(results)| == |results|
  {
    if results != [] {
      ChainedLength(results[..|results| - 1]);
    }
  }

  /** An hour comes out anchored exactly when some hour of its pair at or before it opened with a snapshot and every
      hour from that one up to it is present and without an error; nothing else of the result changes. */
  lemma ChainAnchorExactly(results: seq<ReplayResult>, i: nat)
    requires Enumerated(results) && i < |results|
    ensures |Chained(results)| == |results|
    ensures Chained(results)[i] == results[i].(anchored := Chained(results)[i].anchored)
    ensures Chained(results)[i].anchored <==> Anchored(results, results[i].pair, results[i].hour.value)
  {
    hide Anchored, Verdict;
    ChainedAt(results, i);
    FrontEnumerated(results, i + 1);
    VerdictMeans(results[..i + 1]);
    AnchoredThen(results, i);
  }

  // ---- one hour replayed

  type Slot = (Pair, int)

  /** One final of the archive: its bytes, when they can be read, and what its sidecar says. */
  datatype Segment = Segment(pair: Pair, hour: int, content: Option<Content>, sidecar: Option<Digest>)

  function SlotOf(s: Segment): Slot {
    (s.pair, s.hour)
  }

  const VERIFIER_VERSION: int := 1

  datatype Row = Row(byteHash: Option<Digest>, version: int, facts: Facts)

  /** The verdict on the bytes, made a failure when the sidecar does not name them. */
  function FactsOf(s: Segment, replay: (Pair, Content) -> Facts): Facts {
    if s.content.None? then Facts(0, 0, false, false, false, false, Some(Unreadable))
    else
      var found := replay(s.pair, s.content.value);
      if s.sidecar.None? then found.(error := Some(NoSidecar(found.error)))
      else if s.sidecar != Some(Sha256(s.content.value)) then found.(error := Some(SidecarDiffers(found.error)))
      else found
  }

  function HashOf(s: Segment): Option<Digest> {
    if s.content.None? then None else Some(Sha256(s.content.value))
  }

  function RowOf(s: Segment, replay: (Pair, Content) -> Facts): Row {
    Row(HashOf(s), VERIFIER_VERSION, FactsOf(s, replay))
  }

  function ResultOf(pair: Pair, hour: int, f: Facts): ReplayResult {
    ReplayResult(pair, Some(hour), f.rows, f.messages, f.opensWithSnapshot, f.tsOrdered, f.checksumPresent, f.replayOk, f.error)
  }

  predicate CachedFailure(row: Row) {
    row.facts.error.Some? || !(row.facts.tsOrdered && row.facts.checksumPresent && row.facts.replayOk)
  }

  predicate Stale(row: Row, s: Segment, reverifyAll: bool) {
    reverifyAll || row.version != VERIFIER_VERSION || CachedFailure(row) || s.sidecar.None? || s.sidecar != row.byteHash
  }

  // ---- the incremental sweep

  type Checkpoint = map<Slot, Row>

  /** One segment a slot. */
  ghost predicate OneEach(segments: seq<Segment>) {
    forall i, j :: 0 <= i < j < |segments| ==> SlotOf(segments[i]) != SlotOf(segments[j])
  }

  function Slots(segments: seq<Segment>): set<Slot> {
    set i | 0 <= i < |segments| :: SlotOf(segments[i])
  }

  /** Hours the checkpoint knows and must be replayed again. */
  function StaleOnes(segments: seq<Segment>, cache: Checkpoint, reverifyAll: bool): seq<Segment> {
    if segments == [] then []
    else
      var s := segments[|segments| - 1];
      StaleOnes(segments[..|segments| - 1], cache, reverifyAll)
        + if SlotOf(s) in cache && Stale(cache[SlotOf(s)], s, reverifyAll) then [s] else []
  }

  /** Oldest first, then by pair. */
  function DrainOrder(segments: seq<Segment>, cache: Checkpoint, reverifyAll: bool): seq<Segment> {
    SortBy((s: Segment) => s.hour, SortBy((s: Segment) => s.pair, StaleOnes(segments, cache, reverifyAll)))
  }

  function Drained(drain: seq<Segment>, budget: nat): seq<Segment> {
    if budget < |drain| then drain[..budget] else drain
  }

  function Undrained(drain: seq<Segment>, budget: nat): seq<Segment> {
    if budget < |drain| then drain[budget..] else []
  }

  /** The slots replayed when the clock lets `budget` stale hours through. */
  function FreshSlots(segments: seq<Segment>, cache: Checkpoint, reverifyAll: bool, budget: nat): set<Slot> {
    (Slots(segments) - cache.Keys) + Slots(Drained(DrainOrder(segments, cache, reverifyAll), budget))
  }

  function PendingSlots(segments: seq<Segment>, cache: Checkpoint, reverifyAll: bool, budget: nat): set<Slot> {
    Slots(Undrained(DrainOrder(segments, cache, reverifyAll), budget))
  }

  function ReusedSlots(segments: seq<Segment>, cache: Checkpoint, reverifyAll: bool, budget: nat): set<Slot> {
    Slots(segments) - FreshSlots(segments, cache, reverifyAll, budget) - PendingSlots(segments, cache, reverifyAll, budget)
  }

  predicate EvictionRefused(segments: seq<Segment>, cache: Checkpoint) {
    cache != map[] && 10 * |cache.Keys - Slots(segments)| > |cache.Keys|
  }

  /** The row an hour ends with: replayed now, or served from the checkpoint. */
  function RowFor(s: Segment, cache: Checkpoint, replayed: set<Slot>, replay: (Pair, Content) -> Facts): Row {
    if SlotOf(s) in replayed || SlotOf(s) !in cache then RowOf(s, replay) else cache[SlotOf(s)]
  }

  function RawResults(segments: seq<Segment>, cache: Checkpoint, replayed: set<Slot>, replay: (Pair, Content) -> Facts): seq<ReplayResult> {
    if segments == [] then []
    else
      var s := segments[|segments| - 1];
      RawResults(segments[..|segments| - 1], cache, replayed, replay)
        + [ResultOf(s.pair, s.hour, RowFor(s, cache, replayed, replay).facts)]
  }

  function NextCache(segments: seq<Segment>, cache: Checkpoint, replayed: set<Slot>, replay: (Pair, Content) -> Facts): Checkpoint {
    if segments == [] then map[]
    else
      var s := segments[|segments| - 1];
      NextCache(segments[..|segments| - 1], cache, replayed, replay)[SlotOf(s) := RowFor(s, cache, replayed, replay)]
  }

  /** A re-audited hour whose bytes or facts are not what the checkpoint served. */
  predicate Mismatches(s: Segment, cache: Checkpoint, replay: (Pair, Content) -> Facts) {
    SlotOf(s) in cache
    && (RowOf(s, replay).byteHash != cache[SlotOf(s)].byteHash || RowOf(s, replay).facts != cache[SlotOf(s)].facts)
  }

  function MismatchesAmong(segments: seq<Segment>, cache: Checkpoint, audited: set<Slot>, replay: (Pair, Content) -> Facts): seq<Slot> {
    if segments == [] then []
    else
      var s := segments[|segments| - 1];
      MismatchesAmong(segments[..|segments| - 1], cache, audited, replay)
        + if SlotOf(s) in audited && Mismatches(s, cache, replay) then [SlotOf(s)] else []
  }

  datatype Census = Census(replayed: nat, reused: nat, audited: nat, mismatches: seq<Slot>, pending: nat, evicted: nat)

  datatype Sweep = Swept(results: seq<ReplayResult>, census: Census, cache: Checkpoint) | Refused

  /** What a run makes of the archive and the checkpoint; `picked` are the slots the sampler would draw. */
  function SweepOf(segments: seq<Segment>, cache: Checkpoint, reverifyAll: bool, budget: nat, picked: set<Slot>, replay: (Pair, Content) -> Facts): Sweep {
    if segments == [] then Swept([], Census(0, 0, 0, [], 0, 0), cache)
    else if EvictionRefused(segments, cache) then Refused
    else
      var now := FreshSlots(segments, cache, reverifyAll, budget);
      var pending := PendingSlots(segments, cache, reverifyAll, budget);
      var reused := ReusedSlots(segments, cache, reverifyAll, budget);
      var replayed := now + reused * picked;
      Swept(
        Chained(RawResults(segments, cache, replayed, replay)),
        Census(
          |now|, |reused|, |reused * picked|, MismatchesAmong(segments, cache, reused * picked, replay), |pending|,
          |cache.Keys - Slots(segments)|),
        NextCache(segments, cache, replayed, replay))
  }

  lemma SlotsHold(segments: seq<Segment>, s: Segment)
    ensures s in segments ==> SlotOf(s) in Slots(segments)
    ensures OneEach(segments) && s in segments ==> forall t :: t in segments && SlotOf(t) == SlotOf(s) ==> t == s
  {
    if s in segments {
      var i :| 0 <= i < |segments| && segments[i] == s;
      assert SlotOf(segments[i]) in Slots(segments);
    }
  }

  lemma SlotsSnoc(segments: seq<Segment>)
    requires segments != []
    ensures Slots(segments) == Slots(segments[..|segments| - 1]) + {SlotOf(segments[|segments| - 1])}
  {
    var n := |segments| - 1;
    forall x | x in Slots(segments) ensures x in Slots(segments[..n]) + {SlotOf(segments[n])} {
      var i :| 0 <= i < |segments| && SlotOf(segments[i]) == x;
      if i < n { assert SlotOf(segments[..n][i]) == x; }
    }
    forall x | x in Slots(segments[..n]) ensures x in Slots(segments) {
      var i :| 0 <= i < n && SlotOf(segments[..n][i]) == x;
      assert SlotOf(segments[i]) == x;
    }
  }

  lemma {:induction false} NextCacheKeys(segments: seq<Segment>, cache: Checkpoint, replayed: set<Slot>, replay: (Pair, Content) -> Facts)
    ensures NextCache(segments, cache, replayed, replay).Keys == Slots(segments)
  {
    hide RowFor;
    if segments != [] {
      NextCacheKeys(segments[..|segments| - 1], cache, replayed, replay);
      SlotsSnoc(segments);
    }
  }

  /** The next checkpoint holds, of each hour present, the row it ended with. */
  lemma {:induction false} NextCacheAt(segments: seq<Segment>, cache: Checkpoint, replayed: set<Slot>, replay: (Pair, Content) -> Facts, i: nat)
    requires OneEach(segments) && i < |segments|
    ensures var next := NextCache(segments, cache, replayed, replay);
      SlotOf(segments[i]) in next && next[SlotOf(segments[i])] == RowFor(segments[i], cache, replayed, replay)
  {
    hide RowFor;
    var front := segments[..|segments| - 1];
    if i < |front| {
      assert OneEach(front);
      NextCacheAt(front, cache, replayed, replay, i);
      assert front[i] == segments[i] && SlotOf(segments[i]) != SlotOf(segments[|segments| - 1]);
    }
  }

  lemma {:induction false} StaleOnesAre(segments: seq<Segment>, cache: Checkpoint, reverifyAll: bool)
    ensures forall s :: s in StaleOnes(segments, cache, reverifyAll) <==>
      s in segments && SlotOf(s) in cache && Stale(cache[SlotOf(s)], s, reverifyAll)
  {
    hide Stale;
    if segments != [] {
      var front, last := segments[..|segments| - 1], segments[|segments| - 1];
      StaleOnesAre(front, cache, reverifyAll);
      assert segments == front + [last];
    }
  }

  lemma SamePermuted(a: seq<Segment>, b: seq<Segment>)
    requires multiset(a) == multiset(b)
    ensures forall s :: s in a <==> s in b
    ensures |a| == |b|
  {
    forall s ensures s in a <==> s in b {
      assert s in a <==> s in multiset(a);
      assert s in b <==> s in multiset(b);
    }
    assert |multiset(a)| == |a| && |multiset(b)| == |b|;
  }

  lemma DrainsStale(segments: seq<Segment>, cache: Checkpoint, reverifyAll: bool)
    ensures forall s :: s in DrainOrder(segments, cache, reverifyAll) <==>
      s in segments && SlotOf(s) in cache && Stale(cache[SlotOf(s)], s, reverifyAll)
  {
    hide Stale, StaleOnes;
    var stale := StaleOnes(segments, cache, reverifyAll);
    var byPair := SortBy((s: Segment) => s.pair, stale);
    SortByKeeps((s: Segment) => s.pair, stale);
    SortByKeeps((s: Segment) => s.hour, byPair);
    SamePermuted(DrainOrder(segments, cache, reverifyAll), stale);
    StaleOnesAre(segments, cache, reverifyAll);
  }

  // ---- the run itself

  /** Every replayed hour has its new row, every other hour its cached one. */
  ghost predicate RowsAre(rows: Checkpoint, segments: seq<Segment>, cache: Checkpoint, replayed: set<Slot>, replay: (Pair, Content) -> Facts) {
    && (forall slot :: slot in rows <==> slot in Slots(segments) && (slot in replayed || slot in cache))
    && (forall s :: s in segments && SlotOf(s) in rows ==> rows[SlotOf(s)] == RowFor(s, cache, replayed, replay))
  }

  lemma OneMoreRow(rows: Checkpoint, segments: seq<Segment>, cache: Checkpoint, replayed: set<Slot>, replay: (Pair, Content) -> Facts, s: Segment)
    requires OneEach(segments) && s in segments && RowsAre(rows, segments, cache, replayed, replay)
    ensures RowsAre(rows[SlotOf(s) := RowOf(s, replay)], segments, cache, replayed + {SlotOf(s)}, replay)
  {
    hide RowOf;
    SlotsHold(segments, s);
    hide Slots;
  }

  lemma RowsAreNext(rows: Checkpoint, segments: seq<Segment>, cache: Checkpoint, replayed: set<Slot>, replay: (Pair, Content) -> Facts)
    requires OneEach(segments) && RowsAre(rows, segments, cache, replayed, replay)
    requires Slots(segments) <= replayed + cache.Keys
    ensures rows == NextCache(segments, cache, replayed, replay)
  {
    hide RowFor, NextCache;
    NextCacheKeys(segments, cache, replayed, replay);
    assert rows.Keys == Slots(segments);
    forall slot | slot in rows ensures rows[slot] == NextCache(segments, cache, replayed, replay)[slot] {
      var i :| 0 <= i < |segments| && SlotOf(segments[i]) == slot;
      NextCacheAt(segments, cache, replayed, replay, i);
      assert segments[i] in segments;
    }
  }

  lemma SlotsGrow(segments: seq<Segment>, n: nat)
    requires n < |segments|
    ensures Slots(segments[..n + 1]) == Slots(segments[..n]) + {SlotOf(segments[n])}
  {
    SlotsSnoc(segments[..n + 1]);
    assert segments[..n + 1][..n] == segments[..n];
  }

  lemma RowsStart(rows: Checkpoint, segments: seq<Segment>, cache: Checkpoint, replay: (Pair, Content) -> Facts)
    requires rows == map slot | slot in cache && slot in Slots(segments) :: cache[slot]
    ensures RowsAre(rows, segments, cache, {}, replay)
  {
  }

  lemma SlotsNone(segments: seq<Segment>)
    ensures Slots(segments[..0]) == {}
  {
  }

  lemma StoppedAt(drain: seq<Segment>, k: nat, budget: nat)
    requires k <= |drain| && k <= budget && (k == |drain| || k == budget)
    ensures Slots(drain[..k]) == Slots(Drained(drain, budget)) && Slots(drain[k..]) == Slots(Undrained(drain, budget))
  {
    if k == |drain| {
      assert drain[..k] == drain && drain[k..] == [];
    }
  }

  lemma FoldNone(segments: seq<Segment>, cache: Checkpoint, replayed: set<Slot>, audited: set<Slot>, replay: (Pair, Content) -> Facts)
    ensures RawResults(segments[..0], cache, replayed, replay) == []
    ensures MismatchesAmong(segments[..0], cache, audited, replay) == []
  {
  }

  lemma FoldSnoc(segments: seq<Segment>, cache: Checkpoint, replayed: set<Slot>, audited: set<Slot>, replay: (Pair, Content) -> Facts, i: nat)
    requires i < |segments|
    ensures var s := segments[i];
      && RawResults(segments[..i + 1], cache, replayed, replay) ==
           RawResults(segments[..i], cache, replayed, replay) + [ResultOf(s.pair, s.hour, RowFor(s, cache, replayed, replay).facts)]
      && MismatchesAmong(segments[..i + 1], cache, audited, replay) ==
           MismatchesAmong(segments[..i], cache, audited, replay) + if SlotOf(s) in audited && Mismatches(s, cache, replay) then [SlotOf(s)] else []
  {
    hide RowFor, Mismatches, ResultOf;
    assert segments[..i + 1][..i] == segments[..i];
  }

  lemma RowServed(rows: Checkpoint, segments: seq<Segment>, cache: Checkpoint, replayed: set<Slot>, all: set<Slot>, replay: (Pair, Content) -> Facts, s: Segment)
    requires RowsAre(rows, segments, cache, replayed, replay) && s in segments && SlotOf(s) in Slots(segments)
    requires SlotOf(s) in replayed <==> SlotOf(s) in all
    requires SlotOf(s) in replayed || SlotOf(s) in cache
    ensures SlotOf(s) in rows && rows[SlotOf(s)] == RowFor(s, cache, all, replay)
  {
    hide RowOf, Slots;
  }

  /** Unseen hours unconditionally, then stale ones oldest first until the clock stops it. */
  method ReplayDue(segments: seq<Segment>, cache: Checkpoint, reverifyAll: bool, budget: nat, replay: (Pair, Content) -> Facts)
    returns (rows: Checkpoint, replayed: set<Slot>, pending: set<Slot>)
    requires OneEach(segments)
    ensures replayed == FreshSlots(segments, cache, reverifyAll, budget)
    ensures pending == PendingSlots(segments, cache, reverifyAll, budget)
    ensures RowsAre(rows, segments, cache, replayed, replay)
  {
    hide DrainOrder, RowOf, RowsAre, Slots, Drained, Undrained, Stale;
    var present := Slots(segments);
    rows := map slot | slot in cache && slot in present :: cache[slot];
    RowsStart(rows, segments, cache, replay);
    replayed := {};
    var i := 0;
    SlotsNone(segments);
    while i < |segments|
      invariant 0 <= i <= |segments|
      invariant replayed == Slots(segments[..i]) - cache.Keys
      invariant RowsAre(rows, segments, cache, replayed, replay)
    {
      var s := segments[i];
      SlotsGrow(segments, i);
      if SlotOf(s) !in cache {
        OneMoreRow(rows, segments, cache, replayed, replay, s);
        rows, replayed := rows[SlotOf(s) := RowOf(s, replay)], replayed + {SlotOf(s)};
      }
      i := i + 1;
    }
    assert segments[..|segments|] == segments;
    ghost var mandatory := replayed;
    var drain := DrainOrder(segments, cache, reverifyAll);
    DrainsStale(segments, cache, reverifyAll);
    SlotsNone(drain);
    var k := 0;
    while k < |drain| && k < budget
      invariant 0 <= k <= |drain| && k <= budget
      invariant replayed == mandatory + Slots(drain[..k])
      invariant RowsAre(rows, segments, cache, replayed, replay)
    {
      SlotsGrow(drain, k);
      OneMoreRow(rows, segments, cache, replayed, replay, drain[k]);
      rows, replayed := rows[SlotOf(drain[k]) := RowOf(drain[k], replay)], replayed + {SlotOf(drain[k])};
      k := k + 1;
    }
    StoppedAt(drain, k, budget);
    pending := Slots(drain[k..]);
  }

  /** The verdicts in the archive's order, each drawn reused hour replayed again and compared. */
  method Assemble(segments: seq<Segment>, cache: Checkpoint, due: Checkpoint, now: set<Slot>, audited: set<Slot>, replay: (Pair, Content) -> Facts)
    returns (results: seq<ReplayResult>, mismatches: seq<Slot>, rows: Checkpoint)
    requires OneEach(segments) && RowsAre(due, segments, cache, now, replay)
    requires Slots(segments) <= now + cache.Keys && audited <= Slots(segments)
    ensures results == RawResults(segments, cache, now + audited, replay)
    ensures mismatches == MismatchesAmong(segments, cache, audited, replay)
    ensures rows == NextCache(segments, cache, now + audited, replay)
  {
    hide RowOf, RowsAre, NextCache, RawResults, MismatchesAmong, Mismatches, Slots;
    rows, results, mismatches := due, [], [];
    ghost var replayed := now;
    var i := 0;
    SlotsNone(segments);
    FoldNone(segments, cache, now + audited, audited, replay);
    while i < |segments|
      invariant 0 <= i <= |segments|
      invariant replayed == now + Slots(segments[..i]) * audited
      invariant RowsAre(rows, segments, cache, replayed, replay)
      invariant results == RawResults(segments[..i], cache, now + audited, replay)
      invariant mismatches == MismatchesAmong(segments[..i], cache, audited, replay)
    {
      var s := segments[i];
      SlotsGrow(segments, i);
      FoldSnoc(segments, cache, now + audited, audited, replay, i);
      SlotsHold(segments, s);
      if SlotOf(s) in audited {
        if Mismatches(s, cache, replay) { mismatches := mismatches + [SlotOf(s)]; }
        OneMoreRow(rows, segments, cache, replayed, replay, s);
        rows, replayed := rows[SlotOf(s) := RowOf(s, replay)], replayed + {SlotOf(s)};
      }
      RowServed(rows, segments, cache, replayed, now + audited, replay, s);
      results := results + [ResultOf(s.pair, s.hour, rows[SlotOf(s)].facts)];
      i := i + 1;
    }
    assert segments[..|segments|] == segments;
    assert replayed == now + audited;
    RowsAreNext(rows, segments, cache, replayed, replay);
  }

  /** One run over the archive: refused when the enumeration lost too much, else every verdict, the census and the
      checkpoint it leaves. */
  method VerifyIncremental(segments: seq<Segment>, cache: Checkpoint, reverifyAll: bool, budget: nat, picked: set<Slot>, replay: (Pair, Content) -> Facts)
    returns (sweep: Sweep)
    requires OneEach(segments)
    ensures sweep == SweepOf(segments, cache, reverifyAll, budget, picked, replay)
  {
    if segments == [] { return Swept([], Census(0, 0, 0, [], 0, 0), cache); }
    hide DrainOrder, RowsAre, NextCache, RawResults, Chained, MismatchesAmong, Slots, Drained, Undrained;
    var present := Slots(segments);
    var evicted := cache.Keys - present;
    if cache != map[] && 10 * |evicted| > |cache.Keys| { return Refused; }
    var due, now, pending := ReplayDue(segments, cache, reverifyAll, budget, replay);
    var reused := present - now - pending;
    assert present <= now + cache.Keys;
    var results, mismatches, rows := Assemble(segments, cache, due, now, reused * picked, replay);
    var chained := ChainAnchor(results);
    sweep := Swept(chained, Census(|now|, |reused|, |reused * picked|, mismatches, |pending|, |evicted|), rows);
  }

  // ---- what an incremental run may be trusted with

  /** From scratch: every hour replayed. */
  function FullSweep(segments: seq<Segment>, replay: (Pair, Content) -> Facts): seq<ReplayResult> {
    if segments == [] then []
    else
      var s := segments[|segments| - 1];
      FullSweep(segments[..|segments| - 1], replay) + [ResultOf(s.pair, s.hour, FactsOf(s, replay))]
  }

  /** A checkpointed row of this verifier that is no failure tells what a replay of the bytes it names finds. */
  ghost predicate Faithful(cache: Checkpoint, replay: (Pair, Content) -> Facts) {
    forall slot :: slot in cache ==> FaithfulRow(cache[slot], slot.0, replay)
  }

  ghost predicate FaithfulRow(row: Row, pair: Pair, replay: (Pair, Content) -> Facts) {
    row.version == VERIFIER_VERSION && !CachedFailure(row) ==>
      row.byteHash.Some? && row.facts == replay(pair, row.byteHash.value.content)
  }

  /** The sidecar names the bytes. */
  predicate Manifested(s: Segment) {
    s.content.Some? && s.sidecar == Some(Sha256(s.content.value))
  }

  lemma ReplayedIsFaithful(s: Segment, replay: (Pair, Content) -> Facts)
    ensures FaithfulRow(RowOf(s, replay), s.pair, replay)
  {
  }

  /** Every run leaves a checkpoint whose rows can be trusted, whatever the clock and the sampler did, and of exactly
      the hours present. */
  lemma StaysFaithful(segments: seq<Segment>, cache: Checkpoint, reverifyAll: bool, budget: nat, picked: set<Slot>, replay: (Pair, Content) -> Facts)
    requires OneEach(segments) && Faithful(cache, replay)
    ensures var sweep := SweepOf(segments, cache, reverifyAll, budget, picked, replay);
      sweep.Swept? ==> Faithful(sweep.cache, replay) && (segments != [] ==> sweep.cache.Keys == Slots(segments))
  {
    hide FaithfulRow, RowOf, Chained, DrainOrder, MismatchesAmong, RawResults, NextCache;
    var sweep := SweepOf(segments, cache, reverifyAll, budget, picked, replay);
    if sweep.Swept? && segments != [] {
      var replayed := FreshSlots(segments, cache, reverifyAll, budget) + ReusedSlots(segments, cache, reverifyAll, budget) * picked;
      NextCacheKeys(segments, cache, replayed, replay);
      forall slot | slot in sweep.cache ensures FaithfulRow(sweep.cache[slot], slot.0, replay) {
        var i :| 0 <= i < |segments| && SlotOf(segments[i]) == slot;
        NextCacheAt(segments, cache, replayed, replay, i);
        ReplayedIsFaithful(segments[i], replay);
      }
    }
  }

  /** An hour the run reuses is one the stale test passed. */
  lemma ReusedNotStale(segments: seq<Segment>, cache: Checkpoint, reverifyAll: bool, budget: nat, s: Segment)
    requires OneEach(segments) && s in segments
    requires SlotOf(s) in ReusedSlots(segments, cache, reverifyAll, budget)
    ensures SlotOf(s) in cache && !Stale(cache[SlotOf(s)], s, reverifyAll)
  {
    hide Stale;
    SlotsHold(segments, s);
    DrainsStale(segments, cache, reverifyAll);
    hide DrainOrder;
    var drain := DrainOrder(segments, cache, reverifyAll);
    DrainedOrPending(drain, budget, s);
  }

  lemma DrainedOrPending(drain: seq<Segment>, budget: nat, s: Segment)
    ensures s in drain ==> SlotOf(s) in Slots(Drained(drain, budget)) + Slots(Undrained(drain, budget))
  {
    if budget < |drain| {
      assert drain == drain[..budget] + drain[budget..];
      SlotsHold(drain[..budget], s);
      SlotsHold(drain[budget..], s);
    } else {
      SlotsHold(drain, s);
    }
  }

  /** A reused row of a trusted checkpoint tells of a manifested hour what replaying it now would. */
  lemma ReusedRowIsFresh(segments: seq<Segment>, cache: Checkpoint, reverifyAll: bool, budget: nat, replay: (Pair, Content) -> Facts, s: Segment)
    requires OneEach(segments) && Faithful(cache, replay) && s in segments
    requires SlotOf(s) in ReusedSlots(segments, cache, reverifyAll, budget) && Manifested(s)
    ensures SlotOf(s) in cache && cache[SlotOf(s)].facts == FactsOf(s, replay) && !Mismatches(s, cache, replay)
  {
    hide ReusedSlots;
    ReusedNotStale(segments, cache, reverifyAll, budget, s);
    assert FaithfulRow(cache[SlotOf(s)], SlotOf(s).0, replay);
  }

  /** Incremental is full: with nothing left pending and every reused hour's sidecar naming its bytes, the run's verdicts
      are the fold of a from-scratch replay of every hour, and the audit finds nothing. */
  lemma IncrementalIsFull(segments: seq<Segment>, cache: Checkpoint, reverifyAll: bool, budget: nat, picked: set<Slot>, replay: (Pair, Content) -> Facts)
    requires OneEach(segments) && Faithful(cache, replay)
    requires PendingSlots(segments, cache, reverifyAll, budget) == {}
    requires forall s :: s in segments && SlotOf(s) in ReusedSlots(segments, cache, reverifyAll, budget) ==> Manifested(s)
    ensures var sweep := SweepOf(segments, cache, reverifyAll, budget, picked, replay);
      sweep.Swept? ==> sweep.results == Chained(FullSweep(segments, replay)) && sweep.census.mismatches == []
  {
    hide FactsOf, RowOf, Chained, DrainOrder, Faithful, Manifested, Mismatches, FreshSlots, PendingSlots;
    var reused := ReusedSlots(segments, cache, reverifyAll, budget);
    var replayed := FreshSlots(segments, cache, reverifyAll, budget) + reused * picked;
    forall s | s in segments
      ensures RowFor(s, cache, replayed, replay).facts == FactsOf(s, replay)
      ensures SlotOf(s) in reused ==> !Mismatches(s, cache, replay)
    {
      SlotsHold(segments, s);
      RowOfFacts(s, replay);
      if SlotOf(s) in reused { ReusedRowIsFresh(segments, cache, reverifyAll, budget, replay, s); }
    }
    SameFold(segments, cache, replayed, replay);
    NoMismatch(segments, cache, reused * picked, replay);
    assert Chained([]) == [] by { ChainedLength([]); }
  }

  lemma RowOfFacts(s: Segment, replay: (Pair, Content) -> Facts)
    ensures RowOf(s, replay).facts == FactsOf(s, replay)
  {
  }

  lemma {:induction false} SameFold(segments: seq<Segment>, cache: Checkpoint, replayed: set<Slot>, replay: (Pair, Content) -> Facts)
    requires forall s :: s in segments ==> RowFor(s, cache, replayed, replay).facts == FactsOf(s, replay)
    ensures RawResults(segments, cache, replayed, replay) == FullSweep(segments, replay)
  {
    hide RowFor, FactsOf;
    if segments != [] {
      assert forall s :: s in segments[..|segments| - 1] ==> s in segments;
      SameFold(segments[..|segments| - 1], cache, replayed, replay);
      assert segments[|segments| - 1] in segments;
    }
  }

  lemma {:induction false} NoMismatch(segments: seq<Segment>, cache: Checkpoint, audited: set<Slot>, replay: (Pair, Content) -> Facts)
    requires forall s :: s in segments && SlotOf(s) in audited ==> !Mismatches(s, cache, replay)
    ensures MismatchesAmong(segments, cache, audited, replay) == []
  {
    hide Mismatches;
    if segments != [] {
      assert forall s :: s in segments[..|segments| - 1] ==> s in segments;
      NoMismatch(segments[..|segments| - 1], cache, audited, replay);
      assert segments[|segments| - 1] in segments;
    }
  }

  /** Bytes that rotted under an unchanged sidecar are reused unseen, but not past the audit: every such hour the sampler
      draws is reported. */
  lemma RotIsReported(segments: seq<Segment>, cache: Checkpoint, reverifyAll: bool, budget: nat, picked: set<Slot>, replay: (Pair, Content) -> Facts, s: Segment)
    requires OneEach(segments) && s in segments && segments != [] && !EvictionRefused(segments, cache)
    requires SlotOf(s) in ReusedSlots(segments, cache, reverifyAll, budget) && SlotOf(s) in picked
    requires !Manifested(s)
    ensures SlotOf(s) in SweepOf(segments, cache, reverifyAll, budget, picked, replay).census.mismatches
  {
    hide ReusedSlots, FreshSlots, PendingSlots, Chained, RawResults, NextCache, Slots;
    ReusedNotStale(segments, cache, reverifyAll, budget, s);
    var audited := ReusedSlots(segments, cache, reverifyAll, budget) * picked;
    assert Mismatches(s, cache, replay);
    ReportsEach(segments, cache, audited, replay, s);
  }

  lemma {:induction false} ReportsEach(segments: seq<Segment>, cache: Checkpoint, audited: set<Slot>, replay: (Pair, Content) -> Facts, s: Segment)
    requires s in segments && SlotOf(s) in audited && Mismatches(s, cache, replay)
    ensures SlotOf(s) in MismatchesAmong(segments, cache, audited, replay)
  {
    hide Mismatches;
    if segments[|segments| - 1] != s {
      var i :| 0 <= i < |segments| && segments[i] == s;
      assert segments[..|segments| - 1][i] == s;
      ReportsEach(segments[..|segments| - 1], cache, audited, replay, s);
    }
  }
}
