/** The daily extension of the rolling set, `_plan`, `_place` and `extend` of `cli/data/rolling.py`: write-once, and the
    same tree whether or not it was stopped on the way. */
module RollingExtend {
  import opened Prelude
  import opened Sorting
  import opened Rolling

  /** A tape-bars final, and whether its sidecar names its digest. */
  datatype Final = Final(content: Content, attested: bool)

  type Tape = map<(Pair, int), Final>

  /** The owner's close of some pairs from a day on. */
  datatype Close = Close(pairs: set<Pair>, fromDay: int, text: Text)

  const OWNERS_CLOSE: Text := Word(0)
  const PAST_THE_WINDOW: Text := Word(1)

  function FinalDays(tape: Tape, pair: Pair): set<int> {
    set k | k in tape && k.0 == pair :: k.1
  }

  function NewestFinal(tape: Tape, pair: Pair): Option<int> {
    var days := Ascending(FinalDays(tape, pair));
    if days == [] then None else Some(days[|days| - 1])
  }

  /** `(newest or day) > bound`. */
  predicate HasPast(tape: Tape, pair: Pair, day: int, bound: int) {
    (if NewestFinal(tape, pair).Some? then NewestFinal(tape, pair).value else day) > bound
  }

  function ClosedPairs(line: Line, pairs: set<Pair>): set<Pair> {
    set p | p in pairs && Closed(p) in line.notes
  }

  predicate IsEnded(tape: Tape, pairs: set<Pair>, line: Line) {
    ClosedPairs(line, pairs) == pairs && forall p :: p in pairs ==> !HasPast(tape, p, line.day, line.day)
  }

  // ---- planning

  function Closes(line: Line, close: Option<Close>): map<Pair, Text> {
    var standing := map n | n in line.notes && n.Closed? :: n.pair := line.notes[n];
    if close.Some? && close.value.fromDay == line.day + 1
    then standing + map p | p in close.value.pairs :: close.value.text
    else standing
  }

  function Held(tape: Tape, pairs: set<Pair>, day: int): set<Pair> {
    set p | p in pairs && (p, day) in tape
  }

  function Waiting(tape: Tape, pairs: set<Pair>, line: Line, close: Option<Close>): set<Pair> {
    pairs - Held(tape, pairs, line.day + 1) - Closes(line, close).Keys
  }

  /** A final its sidecar does not name. */
  predicate Forged(tape: Tape, pair: Pair, day: int) {
    (pair, day) in tape && !tape[(pair, day)].attested
  }

  datatype Planned = Planned(line: Line, entry: Content, files: map<Path, Content>)

  function Copied(tape: Tape, pairs: set<Pair>, day: int): map<Path, Content> {
    map p | p in Held(tape, pairs, day) :: DayFile(p, day) := tape[(p, day)].content
  }

  function Listing(files: map<Path, Content>): map<Path, Text> {
    map k | k in files :: Hex(Sha256(files[k]))
  }

  function PlanDay(tape: Tape, pairs: set<Pair>, line: Line, close: Option<Close>): Planned {
    var day := line.day + 1;
    var closes := Closes(line, close);
    var files := Copied(tape, pairs, day);
    var holes := map p | p in pairs - Held(tape, pairs, day) :: if p in closes then OWNERS_CLOSE else PAST_THE_WINDOW;
    var notes := map p | p in pairs - Held(tape, pairs, day) && p in closes :: Closed(p) := closes[p];
    var entry := Entry(day, Below(Hex(line.sha)), Listing(files), holes, if notes == map[] then None else Some(notes));
    Planned(Line(day, Some(line.sha), Digests(Listing(files)), holes, notes, Sha256(entry)), entry, files)
  }

  /** How many days past `day` the tape reaches. */
  function Ahead(tape: Tape, pairs: set<Pair>, day: int): nat {
    var days := Ascending(set k | k in tape && k.0 in pairs && k.1 > day :: k.1);
    if days == [] then 0 else assert days[|days| - 1] in days; days[|days| - 1] - day
  }

  function Pending(line: Line, close: Option<Close>): nat {
    if close.Some? && line.day < close.value.fromDay then 1 else 0
  }

  /** Some pair of the set has a final past `day`. */
  ghost predicate Reaches(tape: Tape, pairs: set<Pair>, day: int) {
    exists p: Pair, d: int :: p in pairs && d > day && (p, d) in tape
  }

  lemma AheadShrinks(tape: Tape, pairs: set<Pair>, day: int)
    ensures Ahead(tape, pairs, day + 1) <= Ahead(tape, pairs, day)
    ensures Reaches(tape, pairs, day) ==> Ahead(tape, pairs, day + 1) < Ahead(tape, pairs, day)
  {
    var now := set k | k in tape && k.0 in pairs && k.1 > day :: k.1;
    var next := set k | k in tape && k.0 in pairs && k.1 > day + 1 :: k.1;
    hide Ascending;
    var a, b := Ascending(now), Ascending(next);
    if b != [] {
      assert b[|b| - 1] in b && b[|b| - 1] in next && b[|b| - 1] in now && b[|b| - 1] in a;
      var i :| 0 <= i < |a| && a[i] == b[|b| - 1];
    }
    if Reaches(tape, pairs, day) {
      var p, d :| p in pairs && d > day && (p, d) in tape;
      assert (p, d).1 in now && d in a;
      assert a[|a| - 1] in a && a[|a| - 1] in now;
    }
  }

  lemma PastReaches(tape: Tape, pairs: set<Pair>, pair: Pair, day: int, bound: int, from: int)
    requires pair in pairs && HasPast(tape, pair, day, bound) && from <= bound && day <= bound
    ensures Reaches(tape, pairs, from)
  {
    var days := Ascending(FinalDays(tape, pair));
    if days != [] { assert days[|days| - 1] in days && days[|days| - 1] in FinalDays(tape, pair); }
    assert (pair, NewestFinal(tape, pair).value) in tape;
  }

  lemma HeldReaches(tape: Tape, pairs: set<Pair>, pair: Pair, day: int)
    requires pair in Held(tape, pairs, day)
    ensures Reaches(tape, pairs, day - 1)
  {
  }

  /** Every day planned brings the plan nearer its end: the tape's newest final, and the day a close is waiting for. */
  lemma PlanAdvances(tape: Tape, pairs: set<Pair>, line: Line, close: Option<Close>)
    requires !IsEnded(tape, pairs, line)
    requires forall p :: p in Waiting(tape, pairs, line, close) ==> HasPast(tape, p, line.day + 1, line.day + 1 + RESCAN_DAYS)
    ensures Ahead(tape, pairs, line.day + 1) <= Ahead(tape, pairs, line.day)
    ensures Ahead(tape, pairs, line.day + 1) == Ahead(tape, pairs, line.day) ==> close.Some? && close.value.fromDay == line.day + 1
  {
    hide Ahead, HasPast, Closes, Held, Reaches;
    AheadShrinks(tape, pairs, line.day);
    var day := line.day + 1;
    if p :| p in Held(tape, pairs, day) {
      HeldReaches(tape, pairs, p, day);
    } else if p :| p in Waiting(tape, pairs, line, close) {
      PastReaches(tape, pairs, p, day, day + RESCAN_DAYS, line.day);
    } else if !(close.Some? && close.value.fromDay == day) {
      AllClosed(tape, pairs, line, close);
      var p :| p in pairs && HasPast(tape, p, line.day, line.day);
      PastReaches(tape, pairs, p, line.day, line.day, line.day);
    }
  }

  lemma AllClosed(tape: Tape, pairs: set<Pair>, line: Line, close: Option<Close>)
    requires forall p :: p !in Held(tape, pairs, line.day + 1) && p !in Waiting(tape, pairs, line, close)
    requires !(close.Some? && close.value.fromDay == line.day + 1)
    ensures ClosedPairs(line, pairs) == pairs
  {
    forall p | p in pairs ensures p in ClosedPairs(line, pairs) {
      assert p !in Waiting(tape, pairs, line, close);
      assert p in Closes(line, close);
    }
  }

  /** Every day the run can write, and whether the plan stops at an ended line. */
  function Plan(tape: Tape, pairs: set<Pair>, line: Line, close: Option<Close>): Result<(seq<Planned>, bool), Error>
    decreases Ahead(tape, pairs, line.day) + Pending(line, close)
  {
    if IsEnded(tape, pairs, line) then Ok(([], true))
    else if exists p :: p in pairs && Forged(tape, p, line.day + 1) then Err(Unattested)
    else if exists p :: p in Waiting(tape, pairs, line, close) && !HasPast(tape, p, line.day + 1, line.day + 1 + RESCAN_DAYS)
    then Ok(([], false))
    else
      PlanAdvances(tape, pairs, line, close);
      var next := PlanDay(tape, pairs, line, close);
      var (rest, ended) :- Plan(tape, pairs, next.line, close);
      Ok(([next] + rest, ended))
  }

  lemma PlanDayIs(tape: Tape, pairs: set<Pair>, line: Line, close: Option<Close>)
    ensures var p := PlanDay(tape, pairs, line, close);
      && p.line.day == line.day + 1 && p.line.prev == Some(line.sha)
      && p.files == Copied(tape, pairs, line.day + 1) && p.line.files == Digests(Listing(p.files))
      && p.line.holes.Keys == pairs - Held(tape, pairs, line.day + 1)
      && (forall n :: n in p.line.notes ==> n.Closed? && n.pair in p.line.holes)
      && p.entry == Entry(p.line.day, Below(Hex(line.sha)), Listing(p.files), p.line.holes, if p.line.notes == map[] then None else Some(p.line.notes))
      && p.line.sha == Sha256(p.entry)
  {
    hide Closes, Copied, Held, Listing;
  }

  lemma CopiedNames(tape: Tape, pairs: set<Pair>, day: int, line: Line)
    requires line.files.Keys == Copied(tape, pairs, day).Keys
    ensures NamedPairs(line) == Held(tape, pairs, day)
    ensures forall k :: k in line.files ==> k.DayFile? && k.day == day
  {
    forall q ensures q in NamedPairs(line) <==> q in Held(tape, pairs, day) {
      if q in Held(tape, pairs, day) {
        assert DayFile(q, day) in line.files && PairOf(DayFile(q, day)) == q;
      }
    }
  }

  lemma ParsesBack(line: Line, below: Digest, files: map<Path, Content>, entry: Content)
    requires forall k :: k in files ==> k.DayFile? && k.day == line.day
    requires forall n :: n in line.notes ==> n.Closed? && n.pair in line.holes
    requires entry == Entry(line.day, Below(Hex(below)), Listing(files), line.holes, if line.notes == map[] then None else Some(line.notes))
    requires line.files == Digests(Listing(files)) && line.prev == Some(below) && line.sha == Sha256(entry)
    ensures Parse(line.day, entry) == Ok(line)
  {
  }

  /** A planned line, written, reads back as itself and names each of the set's pairs once. */
  lemma PlannedReads(tape: Tape, pairs: set<Pair>, line: Line, close: Option<Close>)
    ensures var p := PlanDay(tape, pairs, line, close);
      && Parse(p.line.day, p.entry) == Ok(p.line) && PairsNamed(p.line, pairs)
      && p.line.day == line.day + 1 && p.line.prev == Some(line.sha)
      && p.line.files.Keys == p.files.Keys
      && (forall k :: k in p.files ==> k.DayFile? && k.day == line.day + 1)
  {
    hide PlanDay, Parse, Copied, Held, NamedPairs;
    PlanDayIs(tape, pairs, line, close);
    var p := PlanDay(tape, pairs, line, close);
    CopiedNames(tape, pairs, line.day + 1, p.line);
    ParsesBack(p.line, line.sha, p.files, p.entry);
    HeldOf(tape, pairs, line.day + 1);
  }

  lemma HeldOf(tape: Tape, pairs: set<Pair>, day: int)
    ensures Held(tape, pairs, day) <= pairs
    ensures Held(tape, pairs, day) + (pairs - Held(tape, pairs, day)) == pairs
    ensures Held(tape, pairs, day) * (pairs - Held(tape, pairs, day)) == {}
  {
  }

  ghost predicate Follows(plan: seq<Planned>, i: nat, line: Line, pairs: set<Pair>)
    requires i < |plan|
  {
    var p, below := plan[i], if i == 0 then line else plan[i - 1].line;
    && Parse(p.line.day, p.entry) == Ok(p.line) && PairsNamed(p.line, pairs)
    && p.line.day == line.day + 1 + i && p.line.prev == Some(below.sha)
    && p.line.files.Keys == p.files.Keys
    && (forall k :: k in p.files ==> k.DayFile? && k.day == p.line.day)
  }

  lemma PlanContinues(tape: Tape, pairs: set<Pair>, line: Line, close: Option<Close>)
    requires Plan(tape, pairs, line, close).Ok? && Plan(tape, pairs, line, close).value.0 != []
    ensures !IsEnded(tape, pairs, line)
    ensures forall p :: p in Waiting(tape, pairs, line, close) ==> HasPast(tape, p, line.day + 1, line.day + 1 + RESCAN_DAYS)
    ensures var next := PlanDay(tape, pairs, line, close);
      && Plan(tape, pairs, next.line, close).Ok?
      && Plan(tape, pairs, line, close).value == ([next] + Plan(tape, pairs, next.line, close).value.0, Plan(tape, pairs, next.line, close).value.1)
  {
    hide Ahead, HasPast, Held, Forged, IsEnded, Waiting, PlanDay, Pending;
  }

  /** One day of a plan: the day, and the plan from it. */
  lemma PlanUnfolds(tape: Tape, pairs: set<Pair>, line: Line, close: Option<Close>)
    requires Plan(tape, pairs, line, close).Ok? && Plan(tape, pairs, line, close).value.0 != []
    ensures var next := PlanDay(tape, pairs, line, close);
      && Ahead(tape, pairs, next.line.day) + Pending(next.line, close) < Ahead(tape, pairs, line.day) + Pending(line, close)
      && Plan(tape, pairs, next.line, close).Ok?
      && Plan(tape, pairs, line, close).value == ([next] + Plan(tape, pairs, next.line, close).value.0, Plan(tape, pairs, next.line, close).value.1)
  {
    hide Ahead, HasPast, IsEnded, Waiting, PlanDay, Plan;
    PlanContinues(tape, pairs, line, close);
    PlanAdvances(tape, pairs, line, close);
    PlanDayIs(tape, pairs, line, close);
  }

  /** Every line of a plan is accepted by the reader and links to the one before it, from the line the plan starts at. */
  lemma {:induction false} PlanFollows(tape: Tape, pairs: set<Pair>, line: Line, close: Option<Close>)
    requires Plan(tape, pairs, line, close).Ok?
    ensures forall i :: 0 <= i < |Plan(tape, pairs, line, close).value.0| ==> Follows(Plan(tape, pairs, line, close).value.0, i, line, pairs)
    decreases Ahead(tape, pairs, line.day) + Pending(line, close)
  {
    hide Ahead, Parse, PairsNamed, Plan, PlanDay, Pending;
    var plan := Plan(tape, pairs, line, close).value.0;
    if plan != [] {
      PlanUnfolds(tape, pairs, line, close);
      PlannedReads(tape, pairs, line, close);
      var next := PlanDay(tape, pairs, line, close);
      PlanFollows(tape, pairs, next.line, close);
      var rest := Plan(tape, pairs, next.line, close).value.0;
      forall i | 0 <= i < |plan| ensures Follows(plan, i, line, pairs) {
        if i > 0 { assert plan[i] == rest[i - 1] && Follows(rest, i - 1, next.line, pairs); }
      }
    }
  }

  /** A plan resumed from one of its lines is the rest of it. */
  lemma {:induction false} PlanResumes(tape: Tape, pairs: set<Pair>, line: Line, j: nat)
    requires Plan(tape, pairs, line, None).Ok? && j <= |Plan(tape, pairs, line, None).value.0|
    ensures var (plan, ended) := Plan(tape, pairs, line, None).value;
      Plan(tape, pairs, if j == 0 then line else plan[j - 1].line, None) == Ok((plan[j..], ended))
    decreases j
  {
    hide Ahead, PlanDay, Plan;
    if j > 0 {
      PlanUnfolds(tape, pairs, line, None);
      var next := PlanDay(tape, pairs, line, None);
      PlanResumes(tape, pairs, next.line, j - 1);
      var plan := Plan(tape, pairs, line, None).value.0;
      assert plan[j..] == plan[1..][j - 1..];
    }
  }

  // ---- placing

  type Item = (Dest, Content)

  function FileItems(files: map<Path, Content>, day: int, holders: seq<Pair>): seq<Item> {
    if holders == [] then []
    else
      var path := DayFile(holders[|holders| - 1], day);
      FileItems(files, day, holders[..|holders| - 1]) + if path in files then [(FileAt(path), files[path])] else []
  }

  /** One day's renames: its files, then its line. */
  function ItemsOf(p: Planned): seq<Item> {
    FileItems(p.files, p.line.day, Ascending(set k | k in p.files :: PairOf(k))) + [(LineAt(p.line.day), p.entry)]
  }

  function Items(plan: seq<Planned>): seq<Item> {
    if plan == [] then [] else Items(plan[..|plan| - 1]) + ItemsOf(plan[|plan| - 1])
  }

  /** Every root the renames show, and the refusal they stopped at. */
  datatype Outcome = Outcome(images: seq<Root>, error: Option<Error>)

  function Last(images: seq<Root>): Root
    requires images != []
  {
    images[|images| - 1]
  }

  function PlaceOne(before: Outcome, item: Item): (after: Outcome)
    requires before.images != []
    ensures after.images != []
  {
    var root := Last(before.images);
    if before.error.Some? then before
    else if item.0 !in root then Outcome(before.images + [root[item.0 := item.1]], None)
    else if root[item.0] == item.1 then before
    else before.(error := Some(OtherBytes(item.0)))
  }

  function PlaceAll(root: Root, items: seq<Item>): (o: Outcome)
    ensures o.images != []
  {
    if items == [] then Outcome([root], None)
    else PlaceOne(PlaceAll(root, items[..|items| - 1]), items[|items| - 1])
  }

  /** `extend`: from the head on, every planned day's files renamed in before its line. */
  function Extended(root: Root, tape: Tape, close: Option<Close>): (o: Outcome)
    ensures o.images != []
  {
    if LineAt(BASE_DAY) !in root then Outcome([root], Some(NoBase))
    else if Head(root).Err? then Outcome([root], Some(Head(root).error))
    else if Pairs(root).Err? then Outcome([root], Some(Pairs(root).error))
    else
      var line, pairs := Head(root).value, Pairs(root).value;
      if close.Some? && !(close.value.pairs <= pairs) then Outcome([root], Some(NotAPair))
      else if close.Some? && exists p :: p in close.value.pairs && (p, close.value.fromDay) in tape then Outcome([root], Some(CloseRefused))
      else if Plan(tape, pairs, line, close).Err? then Outcome([root], Some(Plan(tape, pairs, line, close).error))
      else
        var plan := Plan(tape, pairs, line, close).value.0;
        if close.Some? && forall i :: 0 <= i < |plan| ==> plan[i].line.day != close.value.fromDay
        then Outcome([root], Some(CloseRefused))
        else PlaceAll(root, Items(plan))
  }

  /** The set on disk, and every tree it has shown. */
  class RollingSet {
    var root: Root
    ghost var images: seq<Root>

    ghost predicate Valid()
      reads this
    {
      images != [] && Last(images) == root
    }

    constructor (found: Root)
      ensures Valid() && root == found && images == [found]
    {
      root := found;
      images := [found];
    }

    /** A destination already holding these bytes is accepted; one holding others refuses. */
    method Place(dest: Dest, data: Content) returns (error: Option<Error>)
      requires Valid()
      modifies this
      ensures Valid()
      ensures Outcome(images, error) == PlaceOne(Outcome(old(images), None), (dest, data))
    {
      if dest in root {
        return if root[dest] == data then None else Some(OtherBytes(dest));
      }
      root := root[dest := data];
      images := images + [root];
      return None;
    }

    method Extend(tape: Tape, close: Option<Close>) returns (error: Option<Error>)
      requires Valid() && images == [root]
      modifies this
      ensures Valid()
      ensures Outcome(images, error) == Extended(old(root), tape, close)
    {
      hide Plan, Items, PlaceOne, Pairs;
      ghost var start := root;
      if LineAt(BASE_DAY) !in root { return Some(NoBase); }
      var head := Head(root);
      if head.Err? { return Some(head.error); }
      var pairs := Pairs(root);
      if pairs.Err? { return Some(pairs.error); }
      if close.Some? {
        if !(close.value.pairs <= pairs.value) { return Some(NotAPair); }
        if exists p :: p in close.value.pairs && (p, close.value.fromDay) in tape { return Some(CloseRefused); }
      }
      var planned := Plan(tape, pairs.value, head.value, close);
      if planned.Err? { return Some(planned.error); }
      var plan := planned.value.0;
      if close.Some? {
        if forall i :: 0 <= i < |plan| ==> plan[i].line.day != close.value.fromDay { return Some(CloseRefused); }
      }
      var items := Items(plan);
      assert items[..|items|] == items && items[..0] == [];
      PlaceNone(start);
      error := None;
      var i := 0;
      while i < |items|
        invariant 0 <= i <= |items|
        invariant Valid() && error == None
        invariant Outcome(images, None) == PlaceAll(start, items[..i])
      {
        PlaceSnoc(start, items, i);
        error := Place(items[i].0, items[i].1);
        i := i + 1;
        if error.Some? {
          PlaceStops(start, items, i);
          return;
        }
      }
    }
  }

  lemma PlaceNone(root: Root)
    ensures PlaceAll(root, []) == Outcome([root], None)
  {
  }

  lemma PlaceSnoc(root: Root, items: seq<Item>, i: nat)
    requires i < |items|
    ensures PlaceAll(root, items[..i + 1]) == PlaceOne(PlaceAll(root, items[..i]), items[i])
  {
    hide PlaceOne;
    assert items[..i + 1][..i] == items[..i];
  }

  lemma {:induction false} PlaceStops(root: Root, items: seq<Item>, i: nat)
    requires i <= |items| && PlaceAll(root, items[..i]).error.Some?
    ensures PlaceAll(root, items) == PlaceAll(root, items[..i])
    decreases |items|
  {
    if i < |items| {
      assert items[..|items| - 1][..i] == items[..i];
      PlaceStops(root, items[..|items| - 1], i);
    } else {
      assert items[..i] == items;
    }
  }

  // ---- write-once

  ghost predicate Within(s: Root, t: Root) {
    forall k :: k in s ==> k in t && t[k] == s[k]
  }

  ghost predicate Carries(items: seq<Item>, t: Root) {
    forall i :: 0 <= i < |items| ==> items[i].0 in t && t[items[i].0] == items[i].1
  }

  function Dests(items: seq<Item>): set<Dest> {
    set i | 0 <= i < |items| :: items[i].0
  }

  lemma DestsSum(a: seq<Item>, b: seq<Item>)
    ensures Dests(a + b) == Dests(a) + Dests(b)
  {
    forall d | d in Dests(a + b) ensures d in Dests(a) + Dests(b) {
      var i :| 0 <= i < |a + b| && (a + b)[i].0 == d;
      if i < |a| { assert a[i].0 == d; } else { assert b[i - |a|].0 == d; }
    }
    forall d | d in Dests(a) ensures d in Dests(a + b) {
      var i :| 0 <= i < |a| && a[i].0 == d;
      assert (a + b)[i].0 == d;
    }
    forall d | d in Dests(b) ensures d in Dests(a + b) {
      var i :| 0 <= i < |b| && b[i].0 == d;
      assert (a + b)[|a| + i].0 == d;
    }
  }

  lemma CarriesSnoc(front: seq<Item>, item: Item, t: Root)
    requires Carries(front, t) && item.0 in t && t[item.0] == item.1
    ensures Carries(front + [item], t)
  {
  }

  lemma CarriesWithin(items: seq<Item>, s: Root, t: Root)
    requires Carries(items, s) && Within(s, t)
    ensures Carries(items, t)
  {
  }

  lemma OneDest(item: Item)
    ensures Dests([item]) == {item.0}
  {
    assert [item][0] == item;
  }

  /** Renames that met no refusal: nothing present changed, every item is there, and nothing else. */
  lemma {:induction false} PlacedExactly(root: Root, items: seq<Item>)
    requires PlaceAll(root, items).error.None?
    ensures var final := Last(PlaceAll(root, items).images);
      Within(root, final) && Carries(items, final) && final.Keys == root.Keys + Dests(items)
  {
    hide Dests, Carries, PlaceOne;
    if items == [] {
      NothingCarried(root);
    } else {
      var front, item := items[..|items| - 1], items[|items| - 1];
      PlacedOne(PlaceAll(root, front), item);
      PlacedExactly(root, front);
      assert items == front + [item];
      DestsSum(front, [item]);
      OneDest(item);
      var before, after := Last(PlaceAll(root, front).images), Last(PlaceAll(root, items).images);
      CarriesWithin(front, before, after);
      CarriesSnoc(front, item, after);
    }
  }

  lemma PlacedOne(before: Outcome, item: Item)
    requires before.images != [] && PlaceOne(before, item).error.None?
    ensures before.error.None?
    ensures var was, now := Last(before.images), Last(PlaceOne(before, item).images);
      Within(was, now) && item.0 in now && now[item.0] == item.1 && now.Keys == was.Keys + {item.0}
  {
  }

  lemma NothingCarried(t: Root)
    ensures Carries([], t) && Dests([]) == {}
  {
  }

  /** Into a root that disagrees with none of them, items are all accepted. */
  lemma {:induction false} PlacedInto(root: Root, items: seq<Item>, whole: Root)
    requires Within(root, whole) && Carries(items, whole)
    ensures PlaceAll(root, items).error.None?
    ensures Within(Last(PlaceAll(root, items).images), whole)
  {
    if items != [] {
      var front, item := items[..|items| - 1], items[|items| - 1];
      assert Carries(front, whole) by {
        forall i | 0 <= i < |front| ensures front[i].0 in whole && whole[front[i].0] == front[i].1 { assert front[i] == items[i]; }
      }
      PlacedInto(root, front, whole);
      assert items[|items| - 1].0 in whole;
    }
  }

  /** Each root the renames show, refused or not, is what some first items of them make. */
  lemma {:induction false} ImageIsPrefix(root: Root, items: seq<Item>, n: nat) returns (m: nat)
    requires n < |PlaceAll(root, items).images|
    ensures m <= |items| && PlaceAll(root, items[..m]).error.None?
    ensures PlaceAll(root, items).images[n] == Last(PlaceAll(root, items[..m]).images)
  {
    if PlaceAll(root, items).error.None? && n == |PlaceAll(root, items).images| - 1 {
      m := |items|;
      assert items[..m] == items;
    } else {
      var front := items[..|items| - 1];
      m := ImageIsPrefix(root, front, n);
      assert front[..m] == items[..m];
    }
  }

  /** Two runs of renames that stand alike. */
  predicate Alike(a: Outcome, b: Outcome)
    requires a.images != [] && b.images != []
  {
    a.error == b.error && Last(a.images) == Last(b.images)
  }

  lemma PlaceOneAlike(a: Outcome, b: Outcome, item: Item)
    requires a.images != [] && b.images != [] && Alike(a, b)
    ensures Alike(PlaceOne(a, item), PlaceOne(b, item))
  {
  }

  lemma PlaceMore(root: Root, items: seq<Item>, item: Item)
    ensures PlaceAll(root, items + [item]) == PlaceOne(PlaceAll(root, items), item)
  {
    hide PlaceOne;
    assert (items + [item])[..|items|] == items;
  }

  /** Items placed in two goes: what the first left, then the second from there, unless the first was refused. */
  lemma {:induction false} PlaceSum(root: Root, a: seq<Item>, b: seq<Item>)
    ensures var first := PlaceAll(root, a);
      if first.error.Some? then PlaceAll(root, a + b) == first else Alike(PlaceAll(root, a + b), PlaceAll(Last(first.images), b))
  {
    if b == [] {
      assert a + b == a;
    } else {
      hide PlaceOne, Alike, PlaceAll;
      var front, item := b[..|b| - 1], b[|b| - 1];
      var first := PlaceAll(root, a);
      PlaceSum(root, a, front);
      assert b == front + [item] && a + b == (a + front) + [item];
      PlaceMore(root, a + front, item);
      PlaceMore(Last(first.images), front, item);
      if first.error.Some? {
        PlaceOneStays(first, item);
      } else {
        PlaceOneAlike(PlaceAll(root, a + front), PlaceAll(Last(first.images), front), item);
      }
    }
  }

  lemma PlaceOneStays(a: Outcome, item: Item)
    requires a.images != [] && a.error.Some?
    ensures PlaceOne(a, item) == a
  {
  }

  /** Items a root already carries are all accepted, and leave it as it is. */
  lemma {:induction false} PlacedAlready(root: Root, items: seq<Item>)
    requires Carries(items, root)
    ensures PlaceAll(root, items) == Outcome([root], None)
  {
    if items != [] {
      var front, item := items[..|items| - 1], items[|items| - 1];
      assert Carries(front, root) by {
        forall i | 0 <= i < |front| ensures front[i].0 in root && root[front[i].0] == front[i].1 { assert front[i] == items[i]; }
      }
      PlacedAlready(root, front);
    }
  }

  /** Placing again, from what some first items left, ends as placing them all did, refused or not. */
  lemma PlaceAgain(root: Root, items: seq<Item>, r: nat)
    requires r <= |items| && PlaceAll(root, items[..r]).error.None?
    ensures var s := Last(PlaceAll(root, items[..r]).images);
      PlaceAll(s, items).error == PlaceAll(root, items).error && Last(PlaceAll(s, items).images) == Last(PlaceAll(root, items).images)
  {
    hide PlaceAll, Carries, Dests;
    var s := Last(PlaceAll(root, items[..r]).images);
    PlacedExactly(root, items[..r]);
    PlacedAlready(s, items[..r]);
    assert items == items[..r] + items[r..];
    PlaceSum(root, items[..r], items[r..]);
    PlaceSum(s, items[..r], items[r..]);
  }

  /** Nothing present ever changes, whatever the tape and the close, and whether or not the run is refused. */
  lemma {:induction false} NeverRewrites(root: Root, items: seq<Item>, i: nat, j: nat)
    requires i <= j < |PlaceAll(root, items).images|
    ensures Within(PlaceAll(root, items).images[i], PlaceAll(root, items).images[j])
  {
    if items != [] {
      var front := PlaceAll(root, items[..|items| - 1]);
      var images := PlaceAll(root, items).images;
      if j < |front.images| {
        assert images[i] == front.images[i] && images[j] == front.images[j];
        NeverRewrites(root, items[..|items| - 1], i, j);
      } else if i < |front.images| {
        NeverRewrites(root, items[..|items| - 1], i, |front.images| - 1);
        assert images[i] == front.images[i];
      }
    }
  }
}
