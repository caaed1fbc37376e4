/** The depth-limited order book of `cli/capture/book.py`, kept equal to the venue's window. */
module OrderBooks {
  import opened Prelude
  import opened Sorting

  const CHECKSUM_LEVELS: nat := 10

  datatype Side = Bid | Ask

  /** One side of a book: price to quantity, both in whole ticks. */
  type Levels = map<int, int>

  /** One level as it comes off the wire. */
  datatype RawLevel = Level(price: int, qty: int) | Malformed

  datatype Payload = Payload(bids: seq<RawLevel>, asks: seq<RawLevel>, checksum: Option<int>)

  datatype Error = BadLevel | NoChecksum

  datatype Book = Book(bids: Levels, asks: Levels, desynced: bool)

  /** The venue's recipe, over the best levels of the asks and of the bids. */
  type Recipe = (seq<(int, int)>, seq<(int, int)>) -> int

  /** A lower ask and a higher bid come first. */
  predicate Better(side: Side, p: int, q: int) {
    if side.Ask? then p < q else p > q
  }

  // ---- ranking prices

  function Negated(s: set<int>): set<int> {
    set x | x in s :: -x
  }

  function BestOf(side: Side, prices: set<int>): (p: int)
    requires prices != {}
    ensures p in prices && forall q :: q in prices ==> q == p || Better(side, p, q)
  {
    if side.Ask? then Least(prices) else
      assert forall q :: q in prices ==> -q in Negated(prices);
      assert (forall q :: q !in prices) ==> prices == {};
      -Least(Negated(prices))
  }

  /** `sorted(prices)` for the asks, `sorted(prices, reverse=True)` for the bids. */
  function Ranked(side: Side, prices: set<int>): (r: seq<int>)
    ensures |r| == |prices|
    ensures forall p :: p in r <==> p in prices
    decreases |prices|
  {
    if prices == {} then [] else
      var p := BestOf(side, prices);
      [p] + Ranked(side, prices - {p})
  }

  function Restrict(levels: Levels, prices: set<int>): Levels {
    map p | p in levels && p in prices :: levels[p]
  }

  function First(s: seq<int>, n: nat): seq<int> {
    if n < |s| then s[..n] else s
  }

  function Pruned(side: Side, levels: Levels, depth: nat): Levels {
    if |levels| > depth then Restrict(levels, set p | p in First(Ranked(side, levels.Keys), depth)) else levels
  }

  /** `sorted(items)[:n]`. */
  function Top(side: Side, levels: Levels, n: nat): seq<(int, int)> {
    var r := First(Ranked(side, levels.Keys), n);
    seq(|r|, i requires 0 <= i < |r| => assert r[i] in r; (r[i], levels[r[i]]))
  }

  // ---- the window, said without sorting

  function Ahead(side: Side, prices: set<int>, p: int): set<int> {
    set q | q in prices && Better(side, q, p)
  }

  /** The prices with fewer than `depth` better ones beside them. */
  function Visible(side: Side, prices: set<int>, depth: nat): set<int> {
    set p | p in prices && |Ahead(side, prices, p)| < depth
  }

  /** What the venue shows of a full side to a subscriber at `depth`. */
  function Window(side: Side, full: Levels, depth: nat): Levels {
    Restrict(full, Visible(side, full.Keys, depth))
  }

  lemma AheadStep(side: Side, prices: set<int>, p: int)
    requires p in prices
    ensures var best := BestOf(side, prices);
      Ahead(side, prices, p) == if p == best then {} else {best} + Ahead(side, prices - {best}, p)
  {
  }

  /** The window one level deeper: the best price, and the window of what is behind it. */
  lemma VisibleStep(side: Side, prices: set<int>, n: nat)
    requires prices != {} && n > 0
    ensures var best := BestOf(side, prices);
      Visible(side, prices, n) == {best} + Visible(side, prices - {best}, n - 1)
  {
    var best := BestOf(side, prices);
    hide BestOf, Ahead;
    forall p | p in prices ensures p in Visible(side, prices, n) <==> p == best || p in Visible(side, prices - {best}, n - 1) {
      AheadStep(side, prices, p);
      if p != best {
        assert best !in Ahead(side, prices - {best}, p) by { AheadIn(side, prices - {best}, p); }
      }
    }
  }

  lemma AheadIn(side: Side, prices: set<int>, p: int)
    ensures Ahead(side, prices, p) <= prices
  {
  }

  lemma FirstStep(side: Side, prices: set<int>, n: nat)
    requires prices != {} && n > 0
    ensures var best := BestOf(side, prices);
      First(Ranked(side, prices), n) == [best] + First(Ranked(side, prices - {best}), n - 1)
  {
    RankedStep(side, prices);
    FirstOf(BestOf(side, prices), Ranked(side, prices - {BestOf(side, prices)}), n);
    hide Ranked, BestOf, First;
  }

  lemma RankedStep(side: Side, prices: set<int>)
    requires prices != {}
    ensures Ranked(side, prices) == [BestOf(side, prices)] + Ranked(side, prices - {BestOf(side, prices)})
  {
  }

  lemma FirstOf(p: int, s: seq<int>, n: nat)
    requires n > 0
    ensures First([p] + s, n) == [p] + First(s, n - 1)
  {
  }

  lemma VisibleNone(side: Side, prices: set<int>, n: nat)
    requires prices == {} || n == 0
    ensures Visible(side, prices, n) == {}
  {
  }

  lemma FirstNone(side: Side, prices: set<int>, n: nat)
    requires prices == {} || n == 0
    ensures First(Ranked(side, prices), n) == []
  {
  }

  lemma {:induction false} FirstVisible(side: Side, prices: set<int>, n: nat)
    ensures (set p | p in First(Ranked(side, prices), n)) == Visible(side, prices, n)
    decreases |prices|
  {
    hide BestOf, Ranked, Visible, First;
    if prices == {} || n == 0 {
      FirstNone(side, prices, n);
      VisibleNone(side, prices, n);
    } else {
      var best := BestOf(side, prices);
      FirstVisible(side, prices - {best}, n - 1);
      FirstStep(side, prices, n);
      VisibleStep(side, prices, n);
    }
  }

  lemma VisibleIn(side: Side, prices: set<int>, n: nat)
    ensures Visible(side, prices, n) <= prices
  {
  }

  lemma AllVisible(side: Side, prices: set<int>, n: nat)
    requires |prices| <= n
    ensures Visible(side, prices, n) == prices
  {
    FirstVisible(side, prices, n);
  }

  /** Pruning keeps exactly the window. */
  lemma PrunedIsWindow(side: Side, levels: Levels, depth: nat)
    ensures Pruned(side, levels, depth) == Window(side, levels, depth)
  {
    hide Ranked, Visible;
    FirstVisible(side, levels.Keys, depth);
    if |levels| <= depth {
      AllVisible(side, levels.Keys, depth);
    }
  }

  /** Prices that rank behind the window do not disturb it. */
  lemma {:induction false} VisibleBetween(side: Side, prices: set<int>, full: set<int>, n: nat)
    requires Visible(side, full, n) <= prices <= full
    ensures Visible(side, prices, n) == Visible(side, full, n)
  {
    hide Ranked;
    forall p ensures p in Visible(side, prices, n) <==> p in Visible(side, full, n) {
      if p in prices {
        Fewer(Ahead(side, prices, p), Ahead(side, full, p));
        if p !in Visible(side, full, n) {
          VisibleAhead(side, full, n, p);
          Fewer(Visible(side, full, n), Ahead(side, prices, p));
        }
      }
    }
  }

  /** A price outside the window has a full window ahead of it. */
  lemma VisibleAhead(side: Side, full: set<int>, n: nat, p: int)
    requires p in full && p !in Visible(side, full, n)
    ensures |Visible(side, full, n)| == n
    ensures forall q :: q in Visible(side, full, n) ==> Better(side, q, p)
  {
    forall q | q in Visible(side, full, n) ensures Better(side, q, p) {
      if !Better(side, q, p) {
        Fewer(Ahead(side, full, p), Ahead(side, full, q));
      }
    }
    VisibleSize(side, full, n);
    if |full| <= n {
      AllVisible(side, full, n);
    }
  }

  lemma {:induction false} VisibleSize(side: Side, prices: set<int>, n: nat)
    ensures |Visible(side, prices, n)| == if |prices| <= n then |prices| else n
    decreases |prices|
  {
    hide BestOf, Ranked, Visible;
    if prices == {} || n == 0 {
      VisibleNone(side, prices, n);
    } else {
      var best := BestOf(side, prices);
      VisibleSize(side, prices - {best}, n - 1);
      VisibleStep(side, prices, n);
      VisibleIn(side, prices - {best}, n - 1);
    }
  }

  // ---- applying a payload

  /** A side after some levels were applied in place, and whether they could all be read. */
  datatype Applied = Applied(levels: Levels, ok: bool)

  function ApplyLevels(side: Levels, raw: seq<RawLevel>): Applied {
    if raw == [] then Applied(side, true)
    else
      var before := ApplyLevels(side, raw[..|raw| - 1]);
      var last := raw[|raw| - 1];
      if !before.ok then before
      else if last.Malformed? then Applied(before.levels, false)
      else if last.qty == 0 then Applied(before.levels - {last.price}, true)
      else Applied(before.levels[last.price := last.qty], true)
  }

  /** `dict(levels)`: zeros are stored, and a level that cannot be read raises before anything is assigned. */
  function Collected(raw: seq<RawLevel>): Option<Levels> {
    if raw == [] then Some(map[])
    else
      var last := raw[|raw| - 1];
      match Collected(raw[..|raw| - 1])
      case None => None
      case Some(levels) => if last.Malformed? then None else Some(levels[last.price := last.qty])
  }

  function PrunedBook(b: Book, depth: nat): Book {
    b.(bids := Pruned(Bid, b.bids, depth), asks := Pruned(Ask, b.asks, depth))
  }

  function BookChecksum(b: Book, recipe: Recipe): int {
    recipe(Top(Ask, b.asks, CHECKSUM_LEVELS), Top(Bid, b.bids, CHECKSUM_LEVELS))
  }

  function Validated(b: Book, recipe: Recipe, expected: Option<int>): (Book, Result<bool, Error>) {
    match expected
    case None => (b, Err(NoChecksum))
    case Some(c) =>
      var ok := BookChecksum(b, recipe) == c;
      (b.(desynced := !ok), Ok(ok))
  }

  /** A raise midway leaves what was already done. */
  function AfterSnapshot(b: Book, depth: nat, recipe: Recipe, data: Payload): (Book, Result<bool, Error>) {
    match Collected(data.bids)
    case None => (b, Err(BadLevel))
    case Some(bids) =>
      match Collected(data.asks)
      case None => (b.(bids := bids), Err(BadLevel))
      case Some(asks) => Validated(PrunedBook(b.(bids := bids, asks := asks), depth), recipe, data.checksum)
  }

  function AfterUpdate(b: Book, depth: nat, recipe: Recipe, data: Payload): (Book, Result<bool, Error>) {
    var bids := ApplyLevels(b.bids, data.bids);
    if !bids.ok then (b.(bids := bids.levels), Err(BadLevel))
    else
      var asks := ApplyLevels(b.asks, data.asks);
      var applied := b.(bids := bids.levels, asks := asks.levels);
      if !asks.ok then (applied, Err(BadLevel)) else Validated(PrunedBook(applied, depth), recipe, data.checksum)
  }

  class OrderBook {
    const depth: nat
    const recipe: Recipe
    var bids: Levels
    var asks: Levels
    var desynced: bool

    constructor (depth: nat, recipe: Recipe)
      ensures this.depth == depth && this.recipe == recipe
      ensures State() == Book(map[], map[], false)
    {
      this.depth := depth;
      this.recipe := recipe;
      bids, asks, desynced := map[], map[], false;
    }

    function State(): Book
      reads this
    {
      Book(bids, asks, desynced)
    }

    method Prune()
      modifies this`bids, this`asks
      ensures State() == PrunedBook(old(State()), depth)
    {
      if |asks| > depth {
        asks := Restrict(asks, set p | p in First(Ranked(Ask, asks.Keys), depth));
      }
      if |bids| > depth {
        bids := Restrict(bids, set p | p in First(Ranked(Bid, bids.Keys), depth));
      }
    }

    method Validate(expected: Option<int>) returns (r: Result<bool, Error>)
      modifies this`desynced
      ensures (State(), r) == Validated(old(State()), recipe, expected)
    {
      if expected.None? { return Err(NoChecksum); }
      var ok := BookChecksum(State(), recipe) == expected.value;
      desynced := !ok;
      return Ok(ok);
    }

    method IngestSnapshot(data: Payload) returns (r: Result<bool, Error>)
      modifies this
      ensures (State(), r) == AfterSnapshot(old(State()), depth, recipe, data)
    {
      var newBids := CollectLevels(data.bids);
      if newBids.None? { return Err(BadLevel); }
      bids := newBids.value;
      var newAsks := CollectLevels(data.asks);
      if newAsks.None? { return Err(BadLevel); }
      asks := newAsks.value;
      Prune();
      r := Validate(data.checksum);
    }

    method IngestUpdate(data: Payload) returns (r: Result<bool, Error>)
      modifies this
      ensures (State(), r) == AfterUpdate(old(State()), depth, recipe, data)
    {
      var ok;
      bids, ok := ApplySide(bids, data.bids);
      if !ok { return Err(BadLevel); }
      asks, ok := ApplySide(asks, data.asks);
      if !ok { return Err(BadLevel); }
      Prune();
      r := Validate(data.checksum);
    }
  }

  method CollectLevels(raw: seq<RawLevel>) returns (levels: Option<Levels>)
    ensures levels == Collected(raw)
  {
    var collected: Levels := map[];
    var i := 0;
    while i < |raw|
      invariant 0 <= i <= |raw|
      invariant Collected(raw[..i]) == Some(collected)
    {
      assert raw[..i + 1][..i] == raw[..i];
      if raw[i].Malformed? {
        CollectedStops(raw, i + 1);
        return None;
      }
      collected := collected[raw[i].price := raw[i].qty];
      i := i + 1;
    }
    assert raw[..i] == raw;
    return Some(collected);
  }

  lemma {:induction false} CollectedStops(raw: seq<RawLevel>, n: nat)
    requires n <= |raw| && Collected(raw[..n]).None?
    ensures Collected(raw).None?
  {
    if n < |raw| {
      assert raw[..|raw| - 1][..n] == raw[..n];
      CollectedStops(raw[..|raw| - 1], n);
    } else {
      assert raw[..n] == raw;
    }
  }

  method ApplySide(side: Levels, raw: seq<RawLevel>) returns (after: Levels, ok: bool)
    ensures Applied(after, ok) == ApplyLevels(side, raw)
  {
    after, ok := side, true;
    var i := 0;
    while i < |raw|
      invariant 0 <= i <= |raw|
      invariant ok && ApplyLevels(side, raw[..i]) == Applied(after, true)
    {
      assert raw[..i + 1][..i] == raw[..i];
      if raw[i].Malformed? {
        ok := false;
        ApplyStops(side, raw, i + 1);
        return;
      }
      if raw[i].qty == 0 {
        after := after - {raw[i].price};
      } else {
        after := after[raw[i].price := raw[i].qty];
      }
      i := i + 1;
    }
    assert raw[..i] == raw;
  }

  lemma {:induction false} ApplyStops(side: Levels, raw: seq<RawLevel>, n: nat)
    requires n <= |raw| && !ApplyLevels(side, raw[..n]).ok
    ensures ApplyLevels(side, raw) == ApplyLevels(side, raw[..n])
  {
    if n < |raw| {
      assert raw[..|raw| - 1][..n] == raw[..n];
      ApplyStops(side, raw[..|raw| - 1], n);
    } else {
      assert raw[..n] == raw;
    }
  }

  // ---- what the venue sends

  predicate Readable(raw: seq<RawLevel>) {
    forall i :: 0 <= i < |raw| ==> raw[i].Level?
  }

  /** The last thing some levels say about a price. */
  function Says(raw: seq<RawLevel>, p: int): Option<int> {
    if raw == [] then None
    else
      var last := raw[|raw| - 1];
      if last.Level? && last.price == p then Some(last.qty) else Says(raw[..|raw| - 1], p)
  }

  function Quantity(levels: Levels, p: int): int {
    if p in levels then levels[p] else 0
  }

  /** A full side never stores an empty level. */
  ghost predicate Real(full: Levels) {
    forall p :: p in full ==> full[p] != 0
  }

  ghost predicate Truthful(full: Levels, raw: seq<RawLevel>) {
    forall p :: Says(raw, p).Some? ==> Says(raw, p) == Some(Quantity(full, p))
  }

  /** Every level that entered the window or changed inside it. */
  ghost predicate CarriesChanges(before: Levels, after: Levels, raw: seq<RawLevel>) {
    forall p :: p in after && !(p in before && before[p] == after[p]) ==> Says(raw, p).Some?
  }

  /** A zero for every window level the full side lost. A level merely pushed out needs no word. */
  ghost predicate CarriesDeletes(before: Levels, full: Levels, raw: seq<RawLevel>) {
    forall p :: p in before && p !in full ==> Says(raw, p).Some?
  }

  ghost predicate UpdateConforms(side: Side, before: Levels, full: Levels, depth: nat, raw: seq<RawLevel>) {
    && Readable(raw)
    && Truthful(full, raw)
    && CarriesChanges(Window(side, before, depth), Window(side, full, depth), raw)
    && CarriesDeletes(Window(side, before, depth), full, raw)
  }

  /** A snapshot lists the window, truthfully. */
  ghost predicate SnapshotConforms(side: Side, full: Levels, depth: nat, raw: seq<RawLevel>) {
    && Readable(raw)
    && (forall p :: Says(raw, p).Some? ==> p in full && Says(raw, p) == Some(full[p]))
    && (forall p :: p in Window(side, full, depth) ==> Says(raw, p).Some?)
  }

  lemma {:induction false} AppliedSays(side: Levels, raw: seq<RawLevel>, p: int)
    requires Readable(raw)
    ensures ApplyLevels(side, raw).ok
    ensures var said := Says(raw, p); var after := ApplyLevels(side, raw).levels;
      && (p in after <==> if said.Some? then said.value != 0 else p in side)
      && (p in after ==> after[p] == if said.Some? then said.value else side[p])
  {
    if raw != [] {
      AppliedSays(side, raw[..|raw| - 1], p);
    }
  }

  lemma {:induction false} CollectedSays(raw: seq<RawLevel>, p: int)
    requires Readable(raw)
    ensures Collected(raw).Some?
    ensures p in Collected(raw).value <==> Says(raw, p).Some?
    ensures p in Collected(raw).value ==> Collected(raw).value[p] == Says(raw, p).value
  {
    if raw != [] {
      CollectedSays(raw[..|raw| - 1], p);
    }
  }

  /** A side that holds the venue's window, correctly, and nothing the venue lacks. */
  ghost predicate Covers(side: Side, held: Levels, full: Levels, depth: nat) {
    && (forall p :: p in Window(side, full, depth) ==> p in held && held[p] == full[p])
    && held.Keys <= full.Keys
  }

  lemma CoversPrunes(side: Side, held: Levels, full: Levels, depth: nat)
    requires Covers(side, held, full, depth)
    ensures Pruned(side, held, depth) == Window(side, full, depth)
  {
    hide Visible, Pruned;
    PrunedIsWindow(side, held, depth);
    VisibleIn(side, full.Keys, depth);
    forall p | p in Visible(side, full.Keys, depth) ensures p in held.Keys {
      assert p in Window(side, full, depth);
    }
    VisibleBetween(side, held.Keys, full.Keys, depth);
    forall p | p in Visible(side, full.Keys, depth) ensures held[p] == full[p] {
      assert p in Window(side, full, depth);
    }
    assert Window(side, held, depth) == Window(side, full, depth);
  }

  /** Applying a conforming update to the window of the old side, then pruning, gives the window of the new one. */
  lemma UpdateFollows(side: Side, before: Levels, full: Levels, depth: nat, raw: seq<RawLevel>)
    requires Real(full) && UpdateConforms(side, before, full, depth, raw)
    ensures ApplyLevels(Window(side, before, depth), raw).ok
    ensures Pruned(side, ApplyLevels(Window(side, before, depth), raw).levels, depth) == Window(side, full, depth)
  {
    hide Visible, Pruned, ApplyLevels, Says;
    var was, now := Window(side, before, depth), Window(side, full, depth);
    AppliedSays(was, raw, 0);
    var held := ApplyLevels(was, raw).levels;
    forall p | p in now ensures p in held && held[p] == full[p] {
      AppliedSays(was, raw, p);
    }
    forall p | p in held ensures p in full {
      AppliedSays(was, raw, p);
    }
    CoversPrunes(side, held, full, depth);
  }

  lemma SnapshotFollows(side: Side, full: Levels, depth: nat, raw: seq<RawLevel>)
    requires SnapshotConforms(side, full, depth, raw)
    ensures Collected(raw).Some?
    ensures Pruned(side, Collected(raw).value, depth) == Window(side, full, depth)
  {
    hide Visible, Pruned, Collected, Says;
    CollectedSays(raw, 0);
    var held := Collected(raw).value;
    forall p ensures (p in held ==> p in full && held[p] == full[p]) && (p in Window(side, full, depth) ==> p in held) {
      CollectedSays(raw, p);
    }
    CoversPrunes(side, held, full, depth);
  }

  /** What an update must say: every window level it leaves as it was is already held right, and whatever else is held
      afterwards ranks behind a full window. */
  ghost predicate Tells(side: Side, was: Levels, now: Levels, depth: nat, raw: seq<RawLevel>) {
    && (forall p :: p in now ==>
      if Says(raw, p).Some? then Says(raw, p).value == now[p] else p in was && was[p] == now[p])
    && (forall p :: p !in now && (if Says(raw, p).Some? then Says(raw, p).value != 0 else p in was) ==>
      Behind(side, now, depth, p))
  }

  ghost predicate Behind(side: Side, now: Levels, depth: nat, p: int) {
    |now| == depth && forall q :: q in now ==> Better(side, q, p)
  }

  /** The held levels prune to the window exactly when they hold it and everything else lies behind it, full. */
  lemma PrunesExactly(side: Side, held: Levels, full: Levels, depth: nat)
    ensures var now := Window(side, full, depth);
      Pruned(side, held, depth) == now <==>
      && (forall p :: p in now ==> p in held && held[p] == now[p])
      && (forall p :: p in held && p !in now ==> Behind(side, now, depth, p))
  {
    hide Visible, Pruned;
    var now := Window(side, full, depth);
    PrunedIsWindow(side, held, depth);
    WindowKeys(side, full, depth);
    WindowKeys(side, held, depth);
    VisibleIn(side, full.Keys, depth);
    if Window(side, held, depth) == now {
      forall p | p in held && p !in now ensures Behind(side, now, depth, p) {
        VisibleAhead(side, held.Keys, depth, p);
        assert now.Keys == Visible(side, held.Keys, depth);
      }
    }
    if (forall p :: p in now ==> p in held && held[p] == now[p]) && (forall p :: p in held && p !in now ==> Behind(side, now, depth, p)) {
      forall p | p in held ensures p in Visible(side, held.Keys, depth) <==> p in now {
        HeldVisible(side, held, full, depth, p);
      }
      VisibleIn(side, held.Keys, depth);
      assert Window(side, held, depth) == now;
    }
  }

  lemma WindowKeys(side: Side, full: Levels, depth: nat)
    ensures Window(side, full, depth).Keys == Visible(side, full.Keys, depth)
  {
    hide Visible;
    VisibleIn(side, full.Keys, depth);
  }

  lemma HeldVisible(side: Side, held: Levels, full: Levels, depth: nat, p: int)
    requires p in held
    requires var now := Window(side, full, depth);
      && now.Keys <= held.Keys
      && (forall q :: q in held && q !in now ==> Behind(side, now, depth, q))
    ensures p in Visible(side, held.Keys, depth) <==> p in Window(side, full, depth)
  {
    hide Restrict;
    var now := Window(side, full, depth);
    WindowKeys(side, full, depth);
    VisibleSize(side, full.Keys, depth);
    if p in now {
      Fewer(Ahead(side, held.Keys, p), now.Keys - {p});
    } else {
      Fewer(now.Keys, Ahead(side, held.Keys, p));
    }
  }

  /** For every readable update, conforming or not: the book follows the venue exactly when the update tells enough. */
  lemma UpdateExactly(side: Side, before: Levels, full: Levels, depth: nat, raw: seq<RawLevel>)
    requires Readable(raw) && Real(full)
    ensures var was, now := Window(side, before, depth), Window(side, full, depth);
      && ApplyLevels(was, raw).ok
      && (Pruned(side, ApplyLevels(was, raw).levels, depth) == now <==> Tells(side, was, now, depth, raw))
  {
    hide Visible, Pruned, ApplyLevels, Says, Behind;
    var was, now := Window(side, before, depth), Window(side, full, depth);
    AppliedSays(was, raw, 0);
    var held := ApplyLevels(was, raw).levels;
    PrunesExactly(side, held, full, depth);
    forall p ensures var said := Says(raw, p); (p in held <==> if said.Some? then said.value != 0 else p in was) && (p in held ==> held[p] == if said.Some? then said.value else was[p]) {
      AppliedSays(was, raw, p);
    }
  }

  // ---- the checksum's ten levels

  lemma BestUnique(side: Side, prices: set<int>, best: int)
    requires best in prices && forall q :: q in prices ==> q == best || Better(side, best, q)
    ensures BestOf(side, prices) == best
  {
  }

  lemma {:induction false} RankedVisible(side: Side, prices: set<int>, n: nat)
    ensures Ranked(side, Visible(side, prices, n)) == First(Ranked(side, prices), n)
    decreases |prices|
  {
    hide Ranked, Visible, First, BestOf;
    if prices == {} || n == 0 {
      FirstNone(side, prices, n);
      VisibleNone(side, prices, n);
      assert Ranked(side, {}) == [];
    } else {
      var best := BestOf(side, prices);
      var rest := Visible(side, prices - {best}, n - 1);
      RankedVisible(side, prices - {best}, n - 1);
      FirstStep(side, prices, n);
      VisibleStep(side, prices, n);
      VisibleIn(side, prices - {best}, n - 1);
      RankedAhead(side, best, rest);
    }
  }

  lemma RankedAhead(side: Side, best: int, rest: set<int>)
    requires best !in rest && forall q :: q in rest ==> Better(side, best, q)
    ensures Ranked(side, {best} + rest) == [best] + Ranked(side, rest)
  {
    BestUnique(side, {best} + rest, best);
    assert {best} + rest - {best} == rest;
  }

  /** The window has the same best levels as the full side exactly when it is deep enough for them, or complete. */
  lemma TopOfWindow(side: Side, full: Levels, depth: nat, n: nat)
    ensures Top(side, Window(side, full, depth), n) == Top(side, full, n) <==> n <= depth || |full| <= depth
  {
    hide Visible, Ranked;
    var r := Ranked(side, full.Keys);
    WindowKeys(side, full, depth);
    RankedVisible(side, full.Keys, depth);
    var a, b := Top(side, Window(side, full, depth), n), Top(side, full, n);
    if n <= depth || |full| <= depth {
      assert First(First(r, depth), n) == First(r, n);
      assert a == b;
    } else {
      assert |a| == depth < |b|;
    }
  }

  // ---- over whole runs

  /** The venue's full book. */
  datatype Market = Market(bids: Levels, asks: Levels)

  /** What the venue's book became, and what it sent about it. */
  datatype Step = Step(market: Market, snapshot: bool, data: Payload)

  function Stepped(b: Book, depth: nat, recipe: Recipe, s: Step): (Book, Result<bool, Error>) {
    if s.snapshot then AfterSnapshot(b, depth, recipe, s.data) else AfterUpdate(b, depth, recipe, s.data)
  }

  /** The book after a run of messages, and what the last one returned. */
  function Ran(b: Book, depth: nat, recipe: Recipe, run: seq<Step>): (Book, Result<bool, Error>)
    requires run != []
  {
    var before := if |run| == 1 then b else Ran(b, depth, recipe, run[..|run| - 1]).0;
    Stepped(before, depth, recipe, run[|run| - 1])
  }

  ghost predicate StepConforms(before: Market, s: Step, depth: nat) {
    if s.snapshot then
      && SnapshotConforms(Bid, s.market.bids, depth, s.data.bids)
      && SnapshotConforms(Ask, s.market.asks, depth, s.data.asks)
    else
      && Real(s.market.bids) && Real(s.market.asks)
      && UpdateConforms(Bid, before.bids, s.market.bids, depth, s.data.bids)
      && UpdateConforms(Ask, before.asks, s.market.asks, depth, s.data.asks)
  }

  /** A subscription: a snapshot first, then what the venue promises, snapshots and updates in any order. */
  ghost predicate Subscription(run: seq<Step>, depth: nat) {
    && run != [] && run[0].snapshot
    && StepConforms(Market(map[], map[]), run[0], depth)
    && forall i :: 0 < i < |run| ==> StepConforms(run[i - 1].market, run[i], depth)
  }

  ghost predicate Mirrors(b: Book, m: Market, depth: nat) {
    b.bids == Window(Bid, m.bids, depth) && b.asks == Window(Ask, m.asks, depth)
  }

  lemma StepMirrors(b: Book, before: Market, depth: nat, recipe: Recipe, s: Step)
    requires s.snapshot || Mirrors(b, before, depth)
    requires StepConforms(before, s, depth)
    ensures Mirrors(Stepped(b, depth, recipe, s).0, s.market, depth)
    ensures var (after, r) := Stepped(b, depth, recipe, s); (after, r) == Validated(after.(desynced := b.desynced), recipe, s.data.checksum)
  {
    hide Window, Pruned, ApplyLevels, Collected, SnapshotConforms, UpdateConforms, BookChecksum;
    if s.snapshot {
      SnapshotFollows(Bid, s.market.bids, depth, s.data.bids);
      SnapshotFollows(Ask, s.market.asks, depth, s.data.asks);
    } else {
      UpdateFollows(Bid, before.bids, s.market.bids, depth, s.data.bids);
      UpdateFollows(Ask, before.asks, s.market.asks, depth, s.data.asks);
    }
  }

  /** After every message of a subscription the book holds the venue's window on both sides, whatever it held before
      the first snapshot. */
  lemma {:induction false} RunMirrors(b: Book, depth: nat, recipe: Recipe, run: seq<Step>, k: nat)
    requires Subscription(run, depth) && 0 < k <= |run|
    ensures Mirrors(Ran(b, depth, recipe, run[..k]).0, run[k - 1].market, depth)
  {
    hide Mirrors, StepConforms, Stepped;
    var prefix := run[..k];
    assert prefix[k - 1] == run[k - 1];
    if k == 1 {
      StepMirrors(b, Market(map[], map[]), depth, recipe, run[0]);
    } else {
      RunMirrors(b, depth, recipe, run, k - 1);
      assert prefix[..k - 1] == run[..k - 1];
      StepMirrors(Ran(b, depth, recipe, run[..k - 1]).0, run[k - 2].market, depth, recipe, run[k - 1]);
    }
  }

  /** The venue's checksum, taken over its own full book. */
  function VenueChecksum(m: Market, recipe: Recipe): int {
    recipe(Top(Ask, m.asks, CHECKSUM_LEVELS), Top(Bid, m.bids, CHECKSUM_LEVELS))
  }

  /** Over a subscription at least ten levels deep whose checksums are the venue's own, every message validates and the
      book is never desynced after it. */
  lemma NeverDesynced(b: Book, depth: nat, recipe: Recipe, run: seq<Step>, k: nat)
    requires Subscription(run, depth) && 0 < k <= |run|
    requires CHECKSUM_LEVELS <= depth
    requires run[k - 1].data.checksum == Some(VenueChecksum(run[k - 1].market, recipe))
    ensures var (after, r) := Ran(b, depth, recipe, run[..k]); !after.desynced && r == Ok(true)
  {
    hide Window, Top, StepConforms, Stepped;
    RunMirrors(b, depth, recipe, run, k);
    var s := run[k - 1];
    var prefix := run[..k];
    assert prefix[k - 1] == s;
    var before := if k == 1 then b else Ran(b, depth, recipe, run[..k - 1]).0;
    assert k > 1 ==> prefix[..k - 1] == run[..k - 1];
    assert Ran(b, depth, recipe, prefix) == Stepped(before, depth, recipe, s);
    if k == 1 {
      StepMirrors(before, Market(map[], map[]), depth, recipe, s);
    } else {
      RunMirrors(b, depth, recipe, run, k - 1);
      StepMirrors(before, run[k - 2].market, depth, recipe, s);
    }
    TopOfWindow(Bid, s.market.bids, depth, CHECKSUM_LEVELS);
    TopOfWindow(Ask, s.market.asks, depth, CHECKSUM_LEVELS);
  }

  // ---- why the book is pruned

  function Prices(lo: int, hi: int): (s: set<int>)
    ensures forall p :: p in s <==> lo <= p < hi
    decreases if lo < hi then hi - lo else 0
  {
    if lo < hi then Prices(lo, hi - 1) + {hi - 1} else {}
  }

  /** One level at every price of a stretch. */
  function Rungs(lo: int, hi: int): Levels {
    map p | p in Prices(lo, hi) :: 1
  }

  lemma {:induction false} RungsSize(lo: int, hi: int)
    requires lo <= hi
    ensures |Rungs(lo, hi)| == hi - lo
    decreases hi - lo
  {
    if lo < hi {
      RungsSize(lo, hi - 1);
      assert Rungs(lo, hi).Keys == Rungs(lo, hi - 1).Keys + {hi - 1};
    }
  }

  /** Asks without a gap show their lowest `depth` prices. */
  lemma RungsWindow(lo: int, hi: int, depth: nat)
    requires lo <= hi
    ensures Window(Ask, Rungs(lo, hi), depth) == Rungs(lo, if hi - lo <= depth then hi else lo + depth)
  {
    forall p | lo <= p < hi ensures |Ahead(Ask, Rungs(lo, hi).Keys, p)| == p - lo {
      RungsSize(lo, p);
      assert Ahead(Ask, Rungs(lo, hi).Keys, p) == Rungs(lo, p).Keys;
    }
  }

  function Kept(held: Levels, depth: nat, raw: seq<RawLevel>): Levels {
    Pruned(Ask, ApplyLevels(held, raw).levels, depth)
  }

  /** A book kept deeper than the venue shows goes wrong under updates that conform: a better ask pushes the last
      level out, that level is cancelled unseen, the better ask goes, and the cancelled level is still there. */
  lemma Phantom(depth: nat, kept: nat)
    requires 0 < depth < kept
    ensures UpdateConforms(Ask, Rungs(1, depth + 1), Rungs(0, depth + 1), depth, [Level(0, 1)])
    ensures UpdateConforms(Ask, Rungs(0, depth + 1), Rungs(0, depth), depth, [])
    ensures UpdateConforms(Ask, Rungs(0, depth), Rungs(1, depth), depth, [Level(0, 0)])
    ensures var held := Kept(Kept(Kept(Rungs(1, depth + 1), kept, [Level(0, 1)]), kept, []), kept, [Level(0, 0)]);
      && held == Rungs(1, depth + 1)
      && Window(Ask, held, depth) != Window(Ask, Rungs(1, depth), depth)
  {
    PhantomConforms(depth);
    PhantomHeld(depth, kept);
    hide UpdateConforms, Kept, Window;
    RungsWindow(1, depth + 1, depth);
    RungsWindow(1, depth, depth);
    assert depth in Rungs(1, depth + 1) && depth !in Rungs(1, depth);
  }

  lemma PhantomConforms(depth: nat)
    requires 0 < depth
    ensures UpdateConforms(Ask, Rungs(1, depth + 1), Rungs(0, depth + 1), depth, [Level(0, 1)])
    ensures UpdateConforms(Ask, Rungs(0, depth + 1), Rungs(0, depth), depth, [])
    ensures UpdateConforms(Ask, Rungs(0, depth), Rungs(1, depth), depth, [Level(0, 0)])
  {
    hide Window, Says;
    RungsWindow(1, depth + 1, depth);
    RungsWindow(0, depth + 1, depth);
    RungsWindow(0, depth, depth);
    RungsWindow(1, depth, depth);
    SaysOne(Level(0, 1));
    SaysOne(Level(0, 0));
  }

  lemma PhantomHeld(depth: nat, kept: nat)
    requires 0 < depth < kept
    ensures Kept(Kept(Kept(Rungs(1, depth + 1), kept, [Level(0, 1)]), kept, []), kept, [Level(0, 0)]) == Rungs(1, depth + 1)
  {
    hide ApplyLevels, Ranked;
    RungsSize(0, depth + 1);
    RungsSize(1, depth + 1);
    ApplyOne(Rungs(1, depth + 1), Level(0, 1));
    ApplyOne(Rungs(0, depth + 1), Level(0, 0));
    assert Rungs(1, depth + 1)[0 := 1] == Rungs(0, depth + 1);
    assert Rungs(0, depth + 1) - {0} == Rungs(1, depth + 1);
  }

  lemma SaysOne(level: RawLevel)
    requires level.Level?
    ensures forall p, raw :: |raw| == 1 && raw[0] == level ==> Says(raw, p) == if p == level.price then Some(level.qty) else None
    ensures forall p, raw :: raw == [] ==> Says(raw, p) == None
  {
    forall p, raw | |raw| == 1 && raw[0] == level ensures Says(raw, p) == if p == level.price then Some(level.qty) else None {
      assert raw[..0] == [];
    }
  }

  lemma ApplyOne(held: Levels, level: RawLevel)
    requires level.Level?
    ensures ApplyLevels(held, []).levels == held
    ensures ApplyLevels(held, [level]).levels == if level.qty == 0 then held - {level.price} else held[level.price := level.qty]
  {
    assert [level][..0] == [];
  }
}
