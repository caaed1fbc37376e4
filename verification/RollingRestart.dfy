/** An extension of the rolling set stopped between any two renames, and run again on the same tape: when it reaches the
    tree the uninterrupted run reaches. `extend` of `cli/data/rolling.py`. */
module RollingRestart {
  import opened Prelude
  import opened Sorting
  import opened Rolling
  import opened RollingExtend

  // ---- the head, declaratively

  /** A line ahead of its files. */
  ghost predicate Lacking(root: Root, day: int) {
    ReadLine(root, day).Ok? && !AllPresent(root, ReadLine(root, day).value)
  }

  /** `line` is whole, its chain walks, and every newer line is readable and ahead of its files. */
  ghost predicate NewestWhole(root: Root, line: Line) {
    && line.day in Days(root)
    && ReadLine(root, line.day) == Ok(line) && AllPresent(root, line) && WalkChain(root, line.day).Ok?
    && (forall d :: d in Days(root) && d > line.day ==> Lacking(root, d))
  }

  lemma WalkEndsAt(root: Root, day: int)
    requires WalkChain(root, day).Ok?
    ensures WalkChain(root, day).value != []
    ensures ReadLine(root, day).Ok? ==>
      WalkChain(root, day).value[|WalkChain(root, day).value| - 1] == ReadLine(root, day).value
  {
    hide Parse, WalkChain, PairsNamed, Pairs;
    WalkIsLinked(root, day);
  }

  lemma {:induction false} HeadAmongMeans(root: Root, days: seq<int>, n: nat)
    requires n <= |days| && (forall i :: 0 <= i < |days| ==> days[i] in Days(root)) && Increasing(days)
    requires HeadAmong(root, days, n).Ok?
    ensures var line := HeadAmong(root, days, n).value;
      && line.day in Days(root)
      && ReadLine(root, line.day) == Ok(line) && AllPresent(root, line) && WalkChain(root, line.day).Ok?
      && (forall k :: 0 <= k < n && days[k] > line.day ==> Lacking(root, days[k]))
  {
    hide ReadLine, WalkChain, AllPresent, Days;
    if n > 0 {
      if AllPresent(root, ReadLine(root, days[n - 1]).value) {
        WalkEndsAt(root, days[n - 1]);
        ReadUnder(root, days[n - 1]);
      } else {
        HeadAmongMeans(root, days, n - 1);
      }
    }
  }

  lemma ReadUnder(root: Root, day: int)
    requires ReadLine(root, day).Ok?
    ensures ReadLine(root, day).value.day == day && LineAt(day) in root
    ensures Parse(day, root[LineAt(day)]) == Ok(ReadLine(root, day).value)
  {
    hide PairsNamed, Pairs;
    ParsedFrom(day, root[LineAt(day)]);
    hide Parse;
  }

  lemma {:induction false} HeadAmongIs(root: Root, days: seq<int>, n: nat, line: Line)
    requires n <= |days| && (forall i :: 0 <= i < |days| ==> days[i] in Days(root)) && Increasing(days)
    requires NewestWhole(root, line) && line.day in days[..n]
    ensures HeadAmong(root, days, n) == Ok(line)
  {
    hide ReadLine, WalkChain, AllPresent, Days;
    if days[n - 1] == line.day {
      WalkEndsAt(root, line.day);
    } else {
      var i :| 0 <= i < n && days[i] == line.day;
      assert days[i] < days[n - 1];
      assert Lacking(root, days[n - 1]);
      assert days[..n - 1][i] == line.day;
      HeadAmongIs(root, days, n - 1, line);
    }
  }

  /** The head is the newest whole line above which every line is ahead of its files, and nothing else. */
  lemma HeadExactly(root: Root, line: Line)
    ensures Head(root) == Ok(line) <==> NewestWhole(root, line)
  {
    hide HeadAmong, NewestWhole, Days, Ascending;
    var days := Ascending(Days(root));
    assert forall i :: 0 <= i < |days| ==> days[i] in days;
    assert Head(root) == HeadAmong(root, days, |days|);
    if Head(root) == Ok(line) {
      HeadAmongMeans(root, days, |days|);
      forall d | d in Days(root) && d > line.day ensures Lacking(root, d) {
        assert d in days;
        var k :| 0 <= k < |days| && days[k] == d;
      }
      NewestWholeFrom(root, line);
    }
    if NewestWhole(root, line) {
      NewestWholeDay(root, line);
      assert days[..|days|] == days;
      HeadAmongIs(root, days, |days|, line);
    }
  }

  lemma NewestWholeFrom(root: Root, line: Line)
    requires line.day in Days(root)
    requires ReadLine(root, line.day) == Ok(line) && AllPresent(root, line) && WalkChain(root, line.day).Ok?
    requires forall d :: d in Days(root) && d > line.day ==> Lacking(root, d)
    ensures NewestWhole(root, line)
  {
  }

  lemma NewestWholeDay(root: Root, line: Line)
    requires NewestWhole(root, line)
    ensures line.day in Days(root)
  {
  }

  // ---- walking a root with more in it

  lemma {:induction false} DescendSame(a: Root, b: Root, days: seq<int>, other: seq<int>, n: nat, pairs: set<Pair>, after: Option<Line>)
    requires n <= |days| && n <= |other| && days[..n] == other[..n]
    requires forall i :: 0 <= i < n ==> Read(a, days[i]) == Read(b, days[i])
    ensures Descend(a, days, n, pairs, after) == Descend(b, other, n, pairs, after)
  {
    hide Read, PairsNamed;
    if n > 0 {
      assert days[n - 1] == days[..n][n - 1] == other[n - 1];
      assert days[..n - 1] == days[..n][..n - 1] == other[..n - 1];
      DescendSame(a, b, days, other, n - 1, pairs, match Walked(a, days[n - 1], pairs, after) { case Ok(line) => Some(line) case Err(_) => None });
    }
  }

  /** What stands above a chain does not matter as long as it links to its top. */
  lemma DescendBelow(root: Root, days: seq<int>, n: nat, pairs: set<Pair>, top: Line)
    requires 0 < n <= |days| && Descend(root, days, n, pairs, None).Ok?
    requires var chain := Descend(root, days, n, pairs, None).value;
      chain != [] ==> top.day == chain[|chain| - 1].day + 1 && top.prev == Some(chain[|chain| - 1].sha)
    ensures Descend(root, days, n, pairs, Some(top)) == Descend(root, days, n, pairs, None)
  {
    hide Read, PairsNamed;
  }

  lemma WalkSame(root: Root, s: Root, day: int)
    requires Within(root, s) && Pairs(s) == Pairs(root) && day in Days(root)
    requires forall d :: d in Days(s) && d <= day ==> d in Days(root)
    ensures WalkChain(s, day) == WalkChain(root, day)
  {
    assert Days(root) <= Days(s);
    assert (set d | d in Days(s) && d <= day) == (set d | d in Days(root) && d <= day);
    var days := UpTo(root, day);
    hide Ascending, Parse, Pairs;
    forall i | 0 <= i < |days| ensures Read(root, days[i]) == Read(s, days[i]) {
      assert days[i] in days;
    }
    if Pairs(root).Ok? { DescendSame(root, s, days, days, |days|, Pairs(root).value, None); }
  }

  lemma UpToNext(s: Root, day: int)
    requires day + 1 in Days(s)
    ensures UpTo(s, day + 1) == UpTo(s, day) + [day + 1]
  {
    var below := set d | d in Days(s) && d <= day;
    AscendingAbove(below, day + 1);
    assert (set d | d in Days(s) && d <= day + 1) == below + {day + 1};
  }

  lemma DescendMore(s: Root, days: seq<int>, pairs: set<Pair>, next: Line)
    requires days != [] && Descend(s, days, |days|, pairs, None).Ok?
    requires Read(s, next.day) == Ok(next) && PairsNamed(next, pairs)
    requires var chain := Descend(s, days, |days|, pairs, None).value;
      chain != [] && next.day == chain[|chain| - 1].day + 1 && next.prev == Some(chain[|chain| - 1].sha)
    ensures Descend(s, days + [next.day], |days| + 1, pairs, None).Ok?
  {
    hide Read, PairsNamed;
    var more := days + [next.day];
    DescendBelow(s, days, |days|, pairs, next);
    assert more[..|days|] == days[..|days|];
    DescendSame(s, s, days, more, |days|, pairs, Some(next));
    assert Walked(s, more[|days|], pairs, None) == Ok(next);
  }

  lemma WalkMore(s: Root, below: Line, next: Line)
    requires WalkChain(s, below.day).Ok? && ReadLine(s, below.day) == Ok(below)
    requires LineAt(below.day + 1) in s && Parse(below.day + 1, s[LineAt(below.day + 1)]) == Ok(next)
    requires next.prev == Some(below.sha) && PairsNamed(next, Pairs(s).value)
    ensures WalkChain(s, next.day).Ok? && ReadLine(s, next.day) == Ok(next) && next.day == below.day + 1
  {
    hide Parse, PairsNamed, Pairs, UpTo, Least, Descend;
    ParsedFrom(below.day + 1, s[LineAt(below.day + 1)]);
    assert LineAt(next.day).day in Days(s);
    hide Days;
    WalkEndsAt(s, below.day);
    UpToNext(s, below.day);
    UpToSome(s, below.day);
    DescendMore(s, UpTo(s, below.day), Pairs(s).value, next);
  }

  lemma UpToSome(s: Root, day: int)
    requires day in Days(s)
    ensures UpTo(s, day) != []
  {
    assert day in UpTo(s, day);
  }

  // ---- where a stop can leave the set

  function DestsOf(p: Planned): set<Dest> {
    {LineAt(p.line.day)} + set k | k in p.files :: FileAt(k)
  }

  ghost predicate DayFiles(p: Planned) {
    forall k :: k in p.files ==> k.DayFile? && k.day == p.line.day
  }

  lemma {:induction false} FileItemsAre(files: map<Path, Content>, day: int, holders: seq<Pair>)
    ensures forall d :: d in Dests(FileItems(files, day, holders)) <==>
      d.FileAt? && d.path.DayFile? && d.path.day == day && d.path.pair in holders && d.path in files
  {
    if holders == [] {
      assert Dests([]) == {};
    } else {
      var front, p := holders[..|holders| - 1], holders[|holders| - 1];
      FileItemsAre(files, day, front);
      var path := DayFile(p, day);
      assert holders == front + [p];
      hide FileItems;
      FileItemsSnoc(files, day, holders);
      if path in files {
        DestsSum(FileItems(files, day, front), [(FileAt(path), files[path])]);
        OneDest((FileAt(path), files[path]));
      }
      hide Dests;
    }
  }

  lemma FileItemsSnoc(files: map<Path, Content>, day: int, holders: seq<Pair>)
    requires holders != []
    ensures var path, front := DayFile(holders[|holders| - 1], day), FileItems(files, day, holders[..|holders| - 1]);
      FileItems(files, day, holders) == if path in files then front + [(FileAt(path), files[path])] else front
  {
  }

  /** A day's items, all or some of the first: its files, and its line only at the end. */
  lemma ItemsAre(p: Planned, r: nat)
    requires DayFiles(p) && r <= |ItemsOf(p)|
    ensures Dests(ItemsOf(p)) == DestsOf(p)
    ensures Dests(ItemsOf(p)[..r]) <= DestsOf(p)
    ensures r < |ItemsOf(p)| ==> LineAt(p.line.day) !in Dests(ItemsOf(p)[..r])
  {
    var holders := set k | k in p.files :: PairOf(k);
    var day := p.line.day;
    hide Ascending, FileItems;
    FileItemsAre(p.files, day, Ascending(holders));
    var files := FileItems(p.files, day, Ascending(holders));
    var line := (LineAt(day), p.entry);
    DestsSum(files, [line]);
    OneDest(line);
    forall d ensures d in Dests(ItemsOf(p)) <==> d in DestsOf(p) {
      if d.FileAt? && d.path in p.files { assert PairOf(d.path) in holders && d.path == DayFile(PairOf(d.path), day); }
    }
    var items := ItemsOf(p);
    assert items == items[..r] + items[r..];
    DestsSum(items[..r], items[r..]);
    if r < |items| {
      assert items[..r] == files[..r] && files == files[..r] + files[r..];
      DestsSum(files[..r], files[r..]);
    }
  }

  lemma {:induction false} ItemsOfPlan(plan: seq<Planned>, d: Dest)
    requires forall i :: 0 <= i < |plan| ==> DayFiles(plan[i])
    ensures d in Dests(Items(plan)) <==> exists i :: 0 <= i < |plan| && d in DestsOf(plan[i])
  {
    hide ItemsOf, DestsOf;
    if plan == [] {
      assert Dests([]) == {};
    } else {
      var front, last := plan[..|plan| - 1], plan[|plan| - 1];
      assert forall i :: 0 <= i < |front| ==> front[i] == plan[i];
      ItemsOfPlan(front, d);
      ItemsAre(last, 0);
      DestsSum(Items(front), ItemsOf(last));
      hide Dests, Items;
      if i :| 0 <= i < |front| && d in DestsOf(front[i]) { assert d in DestsOf(plan[i]); }
      if i :| 0 <= i < |plan| && d in DestsOf(plan[i]) { assert i < |front| ==> d in DestsOf(front[i]); }
    }
  }

  /** The first items of a plan are some whole days and a beginning of the next. */
  lemma {:induction false} SplitAt(plan: seq<Planned>, m: nat) returns (j: nat, r: nat)
    requires m <= |Items(plan)|
    ensures j <= |plan| && (j == |plan| ==> m == |Items(plan)|)
    ensures if j == |plan| then Items(plan)[..m] == Items(plan)
      else r < |ItemsOf(plan[j])| && Items(plan)[..m] == Items(plan[..j]) + ItemsOf(plan[j])[..r]
  {
    if plan == [] {
      j, r := 0, 0;
    } else {
      var n := |plan| - 1;
      var front, last := plan[..n], plan[n];
      var items := Items(front);
      assert Items(plan) == items + ItemsOf(last);
      hide Items, ItemsOf;
      if m < |items| {
        j, r := SplitAt(front, m);
        assert Items(plan)[..m] == items[..m];
        assert front[..j] == plan[..j] && front[j] == plan[j];
      } else if m - |items| < |ItemsOf(last)| {
        j, r := n, m - |items|;
        assert Items(plan)[..m] == items + ItemsOf(last)[..r];
      } else {
        j, r := |plan|, 0;
        assert Items(plan)[..m] == Items(plan);
      }
    }
  }

  /** `s` is `root` with the plan's first `j` days in it and, at most, some files of the next. */
  ghost predicate Stopped(s: Root, root: Root, whole: Root, plan: seq<Planned>, j: nat) {
    && Within(root, s) && Within(s, whole) && j <= |plan|
    && (forall i, d :: 0 <= i < j && d in DestsOf(plan[i]) ==> d in s)
    && (forall d :: d in s && d !in root ==> exists i :: 0 <= i <= j && i < |plan| && d in DestsOf(plan[i]))
    && (j < |plan| && LineAt(plan[j].line.day) in s ==> LineAt(plan[j].line.day) in root)
  }

  ghost predicate DaysRise(plan: seq<Planned>) {
    && (forall i :: 0 <= i < |plan| ==> DayFiles(plan[i]))
    && (forall i, k :: 0 <= i < k < |plan| ==> plan[i].line.day < plan[k].line.day)
  }

  lemma StopFrom(s: Root, root: Root, whole: Root, placed: set<Dest>, plan: seq<Planned>, j: nat, r: nat)
    requires Within(root, s) && Within(s, whole) && s.Keys == root.Keys + placed
    requires j <= |plan| && DaysRise(plan)
    requires forall d :: d in placed <==> PlacedBy(plan, j, r, d)
    ensures Stopped(s, root, whole, plan, j)
  {
    StopDests(plan, j, r);
    hide PlacedBy, DestsOf, DaysRise;
  }

  lemma StopAt(root: Root, plan: seq<Planned>, m: nat) returns (j: nat)
    requires PlaceAll(root, Items(plan)).error.None? && m <= |Items(plan)|
    requires DaysRise(plan)
    requires PlaceAll(root, Items(plan)[..m]).error.None?
    ensures Stopped(Last(PlaceAll(root, Items(plan)[..m]).images), root, Last(PlaceAll(root, Items(plan)).images), plan, j)
  {
    hide PlaceAll, Items, ItemsOf, PlacedBy, Within, Dests, Stopped;
    var items := Items(plan);
    var r: nat;
    j, r := SplitAt(plan, m);
    PlacedExactly(root, items);
    PlacedExactly(root, items[..m]);
    var whole, s := Last(PlaceAll(root, items).images), Last(PlaceAll(root, items[..m]).images);
    CarriesFirst(items, m, whole);
    PlacedInto(root, items[..m], whole);
    forall d ensures d in Dests(items[..m]) <==> PlacedBy(plan, j, r, d) {
      PlacedDests(plan, m, j, r, d);
    }
    StopFrom(s, root, whole, Dests(items[..m]), plan, j, r);
  }

  lemma CarriesFirst(items: seq<Item>, m: nat, t: Root)
    requires Carries(items, t) && m <= |items|
    ensures Carries(items[..m], t)
  {
    forall i | 0 <= i < m ensures items[..m][i].0 in t && t[items[..m][i].0] == items[..m][i].1 {
      assert items[..m][i] == items[i];
    }
  }

  ghost predicate PlacedBy(plan: seq<Planned>, j: nat, r: nat, d: Dest) {
    || (exists i :: 0 <= i < j && i < |plan| && d in DestsOf(plan[i]))
    || (j < |plan| && r < |ItemsOf(plan[j])| && d in Dests(ItemsOf(plan[j])[..r]))
  }

  lemma PlacedDests(plan: seq<Planned>, m: nat, j: nat, r: nat, d: Dest)
    requires m <= |Items(plan)| && j <= |plan| && forall i :: 0 <= i < |plan| ==> DayFiles(plan[i])
    requires if j == |plan| then Items(plan)[..m] == Items(plan)
      else r < |ItemsOf(plan[j])| && Items(plan)[..m] == Items(plan[..j]) + ItemsOf(plan[j])[..r]
    ensures d in Dests(Items(plan)[..m]) <==> PlacedBy(plan, j, r, d)
  {
    hide ItemsOf, Items, DestsOf;
    var first := plan[..j];
    assert forall i :: 0 <= i < j ==> first[i] == plan[i];
    ItemsOfPlan(first, d);
    if j < |plan| { DestsSum(Items(first), ItemsOf(plan[j])[..r]); } else { assert first == plan; }
    hide Dests, DayFiles;
    if i :| 0 <= i < |first| && d in DestsOf(first[i]) { assert d in DestsOf(plan[i]); }
    if i :| 0 <= i < j && i < |plan| && d in DestsOf(plan[i]) { assert d in DestsOf(first[i]); }
  }

  lemma StopDests(plan: seq<Planned>, j: nat, r: nat)
    requires j <= |plan| && DaysRise(plan)
    ensures forall d :: PlacedBy(plan, j, r, d) ==> exists i :: 0 <= i <= j && i < |plan| && d in DestsOf(plan[i])
    ensures j < |plan| ==> !PlacedBy(plan, j, r, LineAt(plan[j].line.day))
    ensures forall i, d :: 0 <= i < j && d in DestsOf(plan[i]) ==> PlacedBy(plan, j, r, d)
  {
    if j < |plan| && r < |ItemsOf(plan[j])| { ItemsAre(plan[j], r); }
    hide ItemsOf, Dests;
  }

  // ---- the head of a stopped set

  /** The line the first `j` planned days leave at the head. */
  function TopLine(line: Line, plan: seq<Planned>, j: nat): Line
    requires j <= |plan|
  {
    if j == 0 then line else plan[j - 1].line
  }

  /** What a run that gets as far as placing files works from. */
  ghost predicate Ready(root: Root, tape: Tape, close: Option<Close>, line: Line, pairs: set<Pair>, plan: seq<Planned>) {
    && NewestWhole(root, line) && Pairs(root) == Ok(pairs)
    && Plan(tape, pairs, line, close).Ok? && plan == Plan(tape, pairs, line, close).value.0
    && DaysRise(plan) && (forall i :: 0 <= i < |plan| ==> Follows(plan, i, line, pairs))
    && LineAt(BASE_DAY) in root && Extended(root, tape, close) == PlaceAll(root, Items(plan))
  }

  function Whole(root: Root, plan: seq<Planned>): Root {
    Last(PlaceAll(root, Items(plan)).images)
  }

  /** A root a run shows, and what the run works from. */
  ghost predicate StopOf(s: Root, root: Root, line: Line, pairs: set<Pair>, plan: seq<Planned>, j: nat) {
    && NewestWhole(root, line) && Pairs(root) == Ok(pairs)
    && (forall i :: 0 <= i < |plan| ==> Follows(plan, i, line, pairs))
    && PlaceAll(root, Items(plan)).error.None?
    && Stopped(s, root, Whole(root, plan), plan, j)
  }

  lemma {:induction false} CarriesPlan(plan: seq<Planned>, t: Root, i: nat)
    requires Carries(Items(plan), t) && i < |plan|
    ensures Carries(ItemsOf(plan[i]), t)
  {
    var front, last := Items(plan[..|plan| - 1]), ItemsOf(plan[|plan| - 1]);
    assert Items(plan) == front + last;
    hide ItemsOf;
    if i == |plan| - 1 {
      forall k | 0 <= k < |last| ensures last[k].0 in t && t[last[k].0] == last[k].1 {
        assert (front + last)[|front| + k] == last[k];
      }
    } else {
      forall k | 0 <= k < |front| ensures front[k].0 in t && t[front[k].0] == front[k].1 {
        assert (front + last)[k] == front[k];
      }
      CarriesPlan(plan[..|plan| - 1], t, i);
    }
  }

  lemma WholeLine(root: Root, plan: seq<Planned>, i: nat)
    requires PlaceAll(root, Items(plan)).error.None? && i < |plan|
    ensures LineAt(plan[i].line.day) in Whole(root, plan) && Whole(root, plan)[LineAt(plan[i].line.day)] == plan[i].entry
  {
    hide PlaceAll, Items, FileItems, Ascending;
    PlacedExactly(root, Items(plan));
    CarriesPlan(plan, Whole(root, plan), i);
    var items := ItemsOf(plan[i]);
    assert items[|items| - 1] == (LineAt(plan[i].line.day), plan[i].entry);
  }

  lemma PlannedDay(plan: seq<Planned>, i: nat, line: Line, pairs: set<Pair>)
    requires i < |plan| && Follows(plan, i, line, pairs)
    ensures plan[i].line.day == line.day + 1 + i && DayFiles(plan[i])
    ensures plan[i].line.files.Keys == plan[i].files.Keys
    ensures Parse(plan[i].line.day, plan[i].entry) == Ok(plan[i].line) && PairsNamed(plan[i].line, pairs)
    ensures plan[i].line.prev == Some((if i == 0 then line else plan[i - 1].line).sha)
  {
    hide Parse, PairsNamed;
  }

  lemma DestsOfDay(p: Planned)
    ensures forall d :: LineAt(d) in DestsOf(p) <==> d == p.line.day
    ensures forall k :: FileAt(k) in DestsOf(p) <==> k in p.files
  {
  }

  lemma StoppedHas(s: Root, root: Root, whole: Root, plan: seq<Planned>, j: nat, i: nat)
    requires Stopped(s, root, whole, plan, j) && i < j
    ensures DestsOf(plan[i]) <= s.Keys
  {
    hide DestsOf;
  }

  /** The planned day a rename was of. */
  lemma StoppedFrom(s: Root, root: Root, whole: Root, plan: seq<Planned>, j: nat, d: Dest) returns (i: nat)
    requires Stopped(s, root, whole, plan, j) && d in s && d !in root
    ensures i <= j <= |plan| && i < |plan| && d in DestsOf(plan[i]) && (d.LineAt? ==> i < j && d.day == plan[i].line.day)
  {
    hide DestsOf;
    i :| 0 <= i <= j && i < |plan| && d in DestsOf(plan[i]);
    DestsOfDay(plan[i]);
  }

  /** A planned line found in a stopped set is the line planned. */
  lemma PlacedLine(s: Root, root: Root, line: Line, pairs: set<Pair>, plan: seq<Planned>, j: nat, i: nat)
    requires StopOf(s, root, line, pairs, plan, j) && i < |plan|
    requires LineAt(plan[i].line.day) in s
    ensures Parse(plan[i].line.day, s[LineAt(plan[i].line.day)]) == Ok(plan[i].line)
    ensures plan[i].line.day == line.day + 1 + i && PairsNamed(plan[i].line, pairs)
    ensures plan[i].line.prev == Some(TopLine(line, plan, i).sha)
  {
    hide NewestWhole, PlaceAll, Items, Parse, PairsNamed, Pairs, DestsOf;
    PlannedDay(plan, i, line, pairs);
    WholeLine(root, plan, i);
  }

  /** A line's day in a stopped set: there before the run, or one of the days planned so far. */
  lemma StoppedDay(s: Root, root: Root, line: Line, pairs: set<Pair>, plan: seq<Planned>, j: nat, d: int)
    requires StopOf(s, root, line, pairs, plan, j) && d in Days(s) && d !in Days(root)
    ensures line.day < d <= line.day + j
    ensures var i := d - line.day - 1; i < |plan| && plan[i].line.day == d && DestsOf(plan[i]) <= s.Keys
  {
    LineIn(s, d);
    LineIn(root, d);
    hide NewestWhole, PlaceAll, Items, Follows, Pairs, DestsOf, Stopped, Days;
    var i := StoppedFrom(s, root, Whole(root, plan), plan, j, LineAt(d));
    PlannedDay(plan, i, line, pairs);
    StoppedHas(s, root, Whole(root, plan), plan, j, i);
  }

  lemma LineIn(root: Root, d: int)
    ensures d in Days(root) <==> LineAt(d) in root
  {
    assert LineAt(d) in root ==> LineAt(d).day in Days(root);
  }

  lemma PairsKept(s: Root, root: Root, line: Line, pairs: set<Pair>, plan: seq<Planned>, j: nat)
    requires StopOf(s, root, line, pairs, plan, j)
    ensures Pairs(s) == Pairs(root) == Ok(pairs)
    ensures line.day in Days(root) && Within(root, s)
    ensures forall d :: d in Days(s) && d <= line.day ==> d in Days(root)
  {
    NewestWholeDay(root, line);
    hide NewestWhole, PlaceAll, Items, Follows, Parse;
    assert Days(root) <= Days(s);
    forall d | d in Days(s) && d <= line.day ensures d in Days(root) {
      if d !in Days(root) { StoppedDay(s, root, line, pairs, plan, j, d); assert false; }
    }
    assert Least(Days(s)) == Least(Days(root)) by {
      assert Least(Days(root)) in Days(s) && Least(Days(root)) <= line.day;
      assert Least(Days(s)) <= line.day && Least(Days(s)) in Days(root);
    }
    hide Least;
    assert LineAt(Least(Days(root))) in root by { LineIn(root, Least(Days(root))); }
  }

  lemma ReadKept(s: Root, root: Root, d: int)
    requires Within(root, s) && Pairs(s) == Pairs(root) && LineAt(d) in root
    ensures ReadLine(s, d) == ReadLine(root, d)
  {
    hide Parse, Pairs;
  }

  /** Every line placed so far walks, and reads as planned. */
  lemma {:induction false} PlacedWalk(s: Root, root: Root, line: Line, pairs: set<Pair>, plan: seq<Planned>, j: nat, h: nat)
    requires StopOf(s, root, line, pairs, plan, j) && h <= |plan|
    requires forall i :: 0 <= i < h ==> LineAt(plan[i].line.day) in s
    ensures WalkChain(s, TopLine(line, plan, h).day).Ok?
    ensures ReadLine(s, TopLine(line, plan, h).day) == Ok(TopLine(line, plan, h))
    ensures TopLine(line, plan, h).day == line.day + h
  {
    hide WalkChain, ReadLine, Parse, Pairs, Days, PairsNamed, StopOf;
    PairsKept(s, root, line, pairs, plan, j);
    if h == 0 {
      WalkedBefore(s, root, line, pairs, plan, j);
    } else {
      PlacedWalk(s, root, line, pairs, plan, j, h - 1);
      PlacedLine(s, root, line, pairs, plan, j, h - 1);
      WalkMore(s, TopLine(line, plan, h - 1), plan[h - 1].line);
    }
  }

  lemma WalkedBefore(s: Root, root: Root, line: Line, pairs: set<Pair>, plan: seq<Planned>, j: nat)
    requires StopOf(s, root, line, pairs, plan, j)
    ensures WalkChain(s, line.day).Ok? && ReadLine(s, line.day) == Ok(line)
  {
    hide WalkChain, ReadLine, Pairs, Days, PlaceAll, Items, Follows, Stopped, Within;
    PairsKept(s, root, line, pairs, plan, j);
    WalkSame(root, s, line.day);
    LineIn(root, line.day);
    ReadKept(s, root, line.day);
  }

  lemma FilesOfDay(day: int, content: Content, k: Path)
    requires Parse(day, content).Ok? && k in Parse(day, content).value.files
    ensures k.BaseFile? || (k.DayFile? && k.day == day)
  {
  }

  /** A file the run placed is of one of the days it reached. */
  lemma NewFileDay(s: Root, root: Root, line: Line, pairs: set<Pair>, plan: seq<Planned>, j: nat, k: Path)
    requires StopOf(s, root, line, pairs, plan, j) && FileAt(k) in s && FileAt(k) !in root
    ensures j <= |plan| && k.DayFile? && k.day <= line.day + j + 1 && (j == |plan| ==> k.day <= line.day + j)
  {
    hide NewestWhole, PlaceAll, Items, Follows, Pairs, DestsOf, Stopped;
    var i := StoppedFrom(s, root, Whole(root, plan), plan, j, FileAt(k));
    DestsOfDay(plan[i]);
    PlannedDay(plan, i, line, pairs);
  }

  /** A line of which nothing was placed lacks what it lacked. */
  lemma LackingKept(s: Root, root: Root, d: int)
    requires Within(root, s) && Pairs(s) == Pairs(root) && Lacking(root, d)
    requires forall k :: FileAt(k) in s && FileAt(k) !in root ==> k.DayFile? && k.day != d
    ensures Lacking(s, d) && ReadLine(s, d) == ReadLine(root, d)
  {
    hide Parse, Pairs, ReadLine, Within;
    ReadUnder(root, d);
    ReadKept(s, root, d);
    var k :| k in ReadLine(root, d).value.files && FileAt(k) !in root;
    FilesOfDay(d, root[LineAt(d)], k);
  }

  lemma LackingBefore(s: Root, root: Root, line: Line, pairs: set<Pair>, plan: seq<Planned>, j: nat, d: int)
    requires StopOf(s, root, line, pairs, plan, j) && d in Days(s) && d > line.day + j
    ensures Lacking(root, d) && Within(root, s) && Pairs(s) == Pairs(root) && LineAt(d) in root
  {
    hide Parse, Pairs, PlaceAll, Items, WalkChain, Follows, Days, ReadLine, Lacking;
    PairsKept(s, root, line, pairs, plan, j);
    LineIn(root, d);
    if d !in Days(root) { StoppedDay(s, root, line, pairs, plan, j, d); assert false; }
  }

  /** A newer line is still ahead of its files, unless it is of the very next day and that day is whole by now. */
  lemma LackingStill(s: Root, root: Root, line: Line, pairs: set<Pair>, plan: seq<Planned>, j: nat, d: int)
    requires StopOf(s, root, line, pairs, plan, j) && d in Days(s) && d > line.day + j
    requires d == line.day + j + 1 && j < |plan| && LineAt(plan[j].line.day) in s ==> !AllPresent(s, plan[j].line)
    ensures Lacking(s, d)
  {
    hide Parse, Pairs, StopOf, Days, ReadLine, AllPresent, Lacking, Within;
    LackingBefore(s, root, line, pairs, plan, j, d);
    if d == line.day + j + 1 && j < |plan| {
      NextDayLacks(s, root, line, pairs, plan, j);
    } else {
      forall k | FileAt(k) in s && FileAt(k) !in root ensures k.DayFile? && k.day != d {
        NewFileDay(s, root, line, pairs, plan, j, k);
      }
      LackingKept(s, root, d);
    }
  }

  lemma NextDayLacks(s: Root, root: Root, line: Line, pairs: set<Pair>, plan: seq<Planned>, j: nat)
    requires StopOf(s, root, line, pairs, plan, j) && j < |plan|
    requires var d := line.day + j + 1; d in Days(s) && Lacking(root, d) && Within(root, s) && Pairs(s) == Pairs(root) && LineAt(d) in root
    requires LineAt(plan[j].line.day) in s ==> !AllPresent(s, plan[j].line)
    ensures Lacking(s, line.day + j + 1)
  {
    hide Parse, Pairs, Days, AllPresent, PlaceAll, Items, NewestWhole, Stopped;
    var d := line.day + j + 1;
    PlannedDay(plan, j, line, pairs);
    LineIn(s, d);
    PlacedLine(s, root, line, pairs, plan, j, j);
    ReadKept(s, root, d);
    ReadUnder(s, d);
  }

  lemma PlannedPresent(s: Root, plan: seq<Planned>, i: nat, line: Line, pairs: set<Pair>)
    requires i < |plan| && Follows(plan, i, line, pairs) && forall d :: d in DestsOf(plan[i]) ==> d in s
    ensures AllPresent(s, plan[i].line)
  {
    PlannedDay(plan, i, line, pairs);
    hide Follows;
    forall k | k in plan[i].line.files ensures FileAt(k) in s {
      assert FileAt(k) in DestsOf(plan[i]);
    }
  }

  /** The head of a set stopped anywhere in a run is the last planned line whose day is whole in it. */
  lemma HeadAfterStop(s: Root, root: Root, line: Line, pairs: set<Pair>, plan: seq<Planned>, j: nat) returns (h: nat)
    requires StopOf(s, root, line, pairs, plan, j)
    ensures j <= h <= |plan| && NewestWhole(s, TopLine(line, plan, h))
    ensures forall i, d :: 0 <= i < h && d in DestsOf(plan[i]) ==> d in s
  {
    hide Parse, Pairs, PlaceAll, Items, WalkChain, Follows, Days, ReadLine, Lacking, AllPresent, DestsOf, NewestWhole;
    PairsKept(s, root, line, pairs, plan, j);
    h := j;
    if j < |plan| && LineAt(plan[j].line.day) in s && AllPresent(s, plan[j].line) {
      h := j + 1;
      PlannedDay(plan, j, line, pairs);
      DayWhole(s, plan[j]);
    }
    forall i | 0 <= i < h ensures LineAt(plan[i].line.day) in s {
      DestsOfDay(plan[i]);
      assert LineAt(plan[i].line.day) in DestsOf(plan[i]);
    }
    PlacedWalk(s, root, line, pairs, plan, j, h);
    TopPresent(s, root, line, pairs, plan, j, h);
    var top := TopLine(line, plan, h);
    LineIn(s, top.day);
    LineIn(root, line.day);
    forall d | d in Days(s) && d > top.day ensures Lacking(s, d) {
      if j < |plan| { PlannedDay(plan, j, line, pairs); }
      LackingStill(s, root, line, pairs, plan, j, d);
    }
    NewestWholeFrom(s, top);
  }

  lemma DayWhole(s: Root, p: Planned)
    requires LineAt(p.line.day) in s && AllPresent(s, p.line) && p.line.files.Keys == p.files.Keys
    ensures forall d :: d in DestsOf(p) ==> d in s
  {
  }

  lemma TopPresent(s: Root, root: Root, line: Line, pairs: set<Pair>, plan: seq<Planned>, j: nat, h: nat)
    requires StopOf(s, root, line, pairs, plan, j) && h <= |plan|
    requires forall i, d :: 0 <= i < h && d in DestsOf(plan[i]) ==> d in s
    ensures AllPresent(s, TopLine(line, plan, h))
  {
    hide Parse, Pairs, PlaceAll, Items, WalkChain, Follows, Days, ReadLine, Lacking, DestsOf;
    if h > 0 { PlannedPresent(s, plan, h - 1, line, pairs); }
  }

  // ---- what a refusal names

  lemma ReadRefusal(root: Root, day: int)
    ensures ReadLine(root, day).Err? ==> !ReadLine(root, day).error.OtherBytes?
    ensures Pairs(root).Err? ==> !Pairs(root).error.OtherBytes?
    ensures Read(root, day).Err? ==> !Read(root, day).error.OtherBytes?
  {
  }

  lemma {:induction false} DescendRefusal(root: Root, days: seq<int>, n: nat, pairs: set<Pair>, after: Option<Line>)
    requires n <= |days|
    ensures Descend(root, days, n, pairs, after).Err? ==> !Descend(root, days, n, pairs, after).error.OtherBytes?
  {
    hide Read, PairsNamed;
    if n > 0 {
      ReadRefusal(root, days[n - 1]);
      if Walked(root, days[n - 1], pairs, after).Ok? {
        DescendRefusal(root, days, n - 1, pairs, Some(Walked(root, days[n - 1], pairs, after).value));
      }
    }
  }

  lemma {:induction false} HeadAmongRefusal(root: Root, days: seq<int>, n: nat)
    requires n <= |days| && forall i :: 0 <= i < |days| ==> days[i] in Days(root)
    ensures HeadAmong(root, days, n).Err? ==> !HeadAmong(root, days, n).error.OtherBytes?
  {
    hide ReadLine, Pairs, AllPresent, UpTo, Days, Descend;
    if n > 0 {
      var day := days[n - 1];
      ReadRefusal(root, day);
      if Pairs(root).Ok? { DescendRefusal(root, UpTo(root, day), |UpTo(root, day)|, Pairs(root).value, None); }
      HeadAmongRefusal(root, days, n - 1);
    }
  }

  lemma HeadRefusal(root: Root)
    ensures Head(root).Err? ==> !Head(root).error.OtherBytes?
  {
    hide HeadAmong, Days, Ascending;
    var days := Ascending(Days(root));
    assert forall i :: 0 <= i < |days| ==> days[i] in days;
    HeadAmongRefusal(root, days, |days|);
  }

  lemma {:induction false} PlanRefusal(tape: Tape, pairs: set<Pair>, line: Line, close: Option<Close>)
    ensures Plan(tape, pairs, line, close).Err? ==> Plan(tape, pairs, line, close).error == Unattested
    decreases Ahead(tape, pairs, line.day) + Pending(line, close)
  {
    hide Ahead, HasPast, Held, Forged, IsEnded, Waiting, PlanDay;
    if Plan(tape, pairs, line, close).Err? && !(exists p :: p in pairs && Forged(tape, p, line.day + 1)) {
      PlanAdvances(tape, pairs, line, close);
      PlanDayIs(tape, pairs, line, close);
      PlanRefusal(tape, pairs, PlanDay(tape, pairs, line, close).line, close);
    }
  }

  /** Placing is refused for a destination among its items. */
  lemma {:induction false} PlaceRefusal(root: Root, items: seq<Item>)
    requires PlaceAll(root, items).error.Some?
    ensures PlaceAll(root, items).error.value.OtherBytes? && PlaceAll(root, items).error.value.dest in Dests(items)
  {
    var front, item := items[..|items| - 1], items[|items| - 1];
    if PlaceAll(root, front).error.Some? { PlaceRefusal(root, front); }
    assert items == front + [item];
    DestsSum(front, [item]);
    OneDest(item);
  }

  /** The day a destination is of. */
  function DayOf(dest: Dest): int {
    match dest
    case LineAt(day) => day
    case FileAt(path) => if path.DayFile? then path.day else BASE_DAY
  }

  lemma DestDay(p: Planned, dest: Dest)
    requires DayFiles(p) && dest in DestsOf(p)
    ensures DayOf(dest) == p.line.day
  {
  }

  // ---- a stop and a rerun

  /** A run is refused before its first rename, and not for a file's bytes, or places its plan day after day. */
  lemma PlacesOrRefuses(root: Root, tape: Tape, close: Option<Close>)
    ensures (exists line, pairs, plan :: Ready(root, tape, close, line, pairs, plan))
      || (Extended(root, tape, close).error.Some? && !Extended(root, tape, close).error.value.OtherBytes?
          && Extended(root, tape, close).images == [root])
  {
    hide Pairs, Plan, PlaceAll, Items, NewestWhole, Follows, Head;
    HeadRefusal(root);
    ReadRefusal(root, 0);
    if Head(root).Ok? && Pairs(root).Ok? {
      var line, pairs := Head(root).value, Pairs(root).value;
      PlanRefusal(tape, pairs, line, close);
      if Plan(tape, pairs, line, close).Ok? && LineAt(BASE_DAY) in root
        && Extended(root, tape, close) == PlaceAll(root, Items(Plan(tape, pairs, line, close).value.0))
      {
        PlansReady(root, tape, close, line, pairs);
      }
    }
  }

  lemma PlansReady(root: Root, tape: Tape, close: Option<Close>, line: Line, pairs: set<Pair>)
    requires Head(root) == Ok(line) && Pairs(root) == Ok(pairs) && Plan(tape, pairs, line, close).Ok? && LineAt(BASE_DAY) in root
    requires Extended(root, tape, close) == PlaceAll(root, Items(Plan(tape, pairs, line, close).value.0))
    ensures Ready(root, tape, close, line, pairs, Plan(tape, pairs, line, close).value.0)
  {
    hide Pairs, Plan, PlaceAll, Items, NewestWhole, Follows, Head, Extended;
    var plan := Plan(tape, pairs, line, close).value.0;
    HeadExactly(root, line);
    PlanFollows(tape, pairs, line, close);
    forall i | 0 <= i < |plan| ensures plan[i].line.day == line.day + 1 + i && DayFiles(plan[i]) {
      PlannedDay(plan, i, line, pairs);
    }
  }

  lemma PlacesUnlessRefused(root: Root, tape: Tape, close: Option<Close>) returns (line: Line, pairs: set<Pair>, plan: seq<Planned>)
    requires Extended(root, tape, close).error.None?
    ensures Ready(root, tape, close, line, pairs, plan)
  {
    hide Extended, Ready;
    PlacesOrRefuses(root, tape, close);
    line, pairs, plan :| Ready(root, tape, close, line, pairs, plan);
  }

  /** Every root a run that is not refused shows is one of its stops. */
  lemma ImageIsStop(root: Root, tape: Tape, close: Option<Close>, n: nat) returns (line: Line, pairs: set<Pair>, plan: seq<Planned>, j: nat)
    requires Extended(root, tape, close).error.None? && n < |Extended(root, tape, close).images|
    ensures Ready(root, tape, close, line, pairs, plan)
    ensures StopOf(Extended(root, tape, close).images[n], root, line, pairs, plan, j)
  {
    hide Extended, PlaceAll, Items, NewestWhole, Follows, Pairs, Plan, Stopped, DaysRise;
    line, pairs, plan := PlacesUnlessRefused(root, tape, close);
    var m := ImageIsPrefix(root, Items(plan), n);
    j := StopAt(root, plan, m);
  }

  // ---- a root any run shows: whole days, then files of one more

  lemma FollowsFirst(plan: seq<Planned>, j: nat, line: Line, pairs: set<Pair>)
    requires j <= |plan| && DaysRise(plan) && forall i :: 0 <= i < |plan| ==> Follows(plan, i, line, pairs)
    ensures DaysRise(plan[..j]) && forall i :: 0 <= i < j ==> Follows(plan[..j], i, line, pairs)
  {
    hide Parse, PairsNamed, DayFiles;
    var first := plan[..j];
    forall i | 0 <= i < j ensures Follows(first, i, line, pairs) && DayFiles(first[i]) && first[i] == plan[i] {
      assert Follows(plan, i, line, pairs);
    }
  }

  lemma WholeIsStop(root: Root, line: Line, pairs: set<Pair>, plan: seq<Planned>)
    requires NewestWhole(root, line) && Pairs(root) == Ok(pairs)
    requires DaysRise(plan) && forall i :: 0 <= i < |plan| ==> Follows(plan, i, line, pairs)
    requires PlaceAll(root, Items(plan)).error.None?
    ensures StopOf(Whole(root, plan), root, line, pairs, plan, |plan|)
  {
    hide PlaceAll, Items, NewestWhole, Follows, Pairs, Carries, Dests, DestsOf;
    var whole := Whole(root, plan);
    PlacedExactly(root, Items(plan));
    forall d ensures d in Dests(Items(plan)) <==> exists i :: 0 <= i < |plan| && d in DestsOf(plan[i]) {
      ItemsOfPlan(plan, d);
    }
  }

  /** `s` is `base` with files more, of one day, and no line. */
  ghost predicate FilesMore(base: Root, s: Root) {
    Within(base, s) && forall d :: d in s && d !in base ==> d.FileAt?
  }

  /** What the first items of a plan leave, however the rest of them fares: some days whole, and files of one more. */
  lemma PrefixStop(root: Root, line: Line, pairs: set<Pair>, plan: seq<Planned>, m: nat) returns (j: nat, r: nat)
    requires NewestWhole(root, line) && Pairs(root) == Ok(pairs)
    requires DaysRise(plan) && forall i :: 0 <= i < |plan| ==> Follows(plan, i, line, pairs)
    requires m <= |Items(plan)| && PlaceAll(root, Items(plan)[..m]).error.None?
    ensures j <= |plan| && PlaceAll(root, Items(plan[..j])).error.None?
    ensures StopOf(Whole(root, plan[..j]), root, line, pairs, plan[..j], j)
    ensures r <= |Items(plan[j..])| && PlaceAll(Whole(root, plan[..j]), Items(plan[j..])[..r]).error.None?
    ensures Last(PlaceAll(root, Items(plan)[..m]).images) == Last(PlaceAll(Whole(root, plan[..j]), Items(plan[j..])[..r]).images)
    ensures FilesMore(Whole(root, plan[..j]), Last(PlaceAll(root, Items(plan)[..m]).images))
  {
    hide PlaceAll, Items, ItemsOf, NewestWhole, Follows, Pairs, Dests, Carries, DestsOf, DayFiles, DaysRise;
    j, r := SplitAt(plan, m);
    FollowsFirst(plan, j, line, pairs);
    ItemsSplit(plan, j);
    if j == |plan| {
      r := 0;
      assert plan[..j] == plan;
      assert Items(plan)[..m] == Items(plan[..j]) + [];
      assert Items(plan[j..])[..r] == [];
      PlaceSum(root, Items(plan[..j]), []);
    } else {
      ItemsFirst(plan[j..]);
      assert Items(plan[j..])[..r] == ItemsOf(plan[j])[..r];
      PlaceSum(root, Items(plan[..j]), ItemsOf(plan[j])[..r]);
      OneDayFiles(plan, j, r);
    }
    WholeIsStop(root, line, pairs, plan[..j]);
    PlacedExactly(Whole(root, plan[..j]), Items(plan[j..])[..r]);
    NoItems();
  }

  lemma NoItems()
    ensures Dests([]) == {}
  {
  }

  lemma OneDayFiles(plan: seq<Planned>, j: nat, r: nat)
    requires j < |plan| && DaysRise(plan) && r < |ItemsOf(plan[j])|
    ensures forall d :: d in Dests(ItemsOf(plan[j])[..r]) ==> d.FileAt?
  {
    ItemsAre(plan[j], r);
    hide ItemsOf, Dests;
    DestsOfDay(plan[j]);
  }

  lemma {:induction false} ItemsSplit(plan: seq<Planned>, j: nat)
    requires j <= |plan|
    ensures Items(plan) == Items(plan[..j]) + Items(plan[j..])
    decreases |plan|
  {
    hide ItemsOf;
    if j == |plan| {
      assert plan[..j] == plan && plan[j..] == [];
      assert Items(plan) + [] == Items(plan);
    } else {
      var front := plan[..|plan| - 1];
      ItemsSplit(front, j);
      assert front[..j] == plan[..j];
      ItemsRest(plan, j);
    }
  }

  lemma ItemsOne(p: Planned)
    ensures Items([p]) == ItemsOf(p)
  {
    hide ItemsOf;
    assert [p][..0] == [];
    assert Items([]) + ItemsOf(p) == ItemsOf(p);
  }

  lemma ItemsFirst(plan: seq<Planned>)
    requires plan != []
    ensures Items(plan) == ItemsOf(plan[0]) + Items(plan[1..])
  {
    hide ItemsOf, Items;
    ItemsSplit(plan, 1);
    assert plan[..1] == [plan[0]];
    ItemsOne(plan[0]);
  }

  lemma SameLines(base: Root, s: Root)
    requires FilesMore(base, s)
    ensures Days(s) == Days(base) && (Days(base) != {} ==> Pairs(s) == Pairs(base))
    ensures forall d :: LineAt(d) in s <==> LineAt(d) in base
    ensures forall d :: LineAt(d) in base && Days(base) != {} ==> ReadLine(s, d) == ReadLine(base, d)
  {
    forall d ensures d in Days(s) <==> d in Days(base) {
      LineIn(s, d);
      LineIn(base, d);
    }
    hide Parse, Days;
    if Days(base) != {} {
      LineIn(base, Least(Days(base)));
    }
    forall d | LineAt(d) in base && Days(base) != {} ensures ReadLine(s, d) == ReadLine(base, d) {
      ReadKept(s, base, d);
    }
  }

  lemma ItemsRest(plan: seq<Planned>, h: nat)
    requires h < |plan|
    ensures Items(plan[h..]) == Items(plan[..|plan| - 1][h..]) + ItemsOf(plan[|plan| - 1])
  {
    hide ItemsOf;
    assert plan[h..][..|plan| - h - 1] == plan[..|plan| - 1][h..];
  }

  // ---- a stop and a rerun

  /** Run on `s`, an extension ends as it ends run on `root`: the same tree, the same refusal. */
  ghost predicate Reruns(s: Root, root: Root, tape: Tape) {
    && Extended(s, tape, None).error == Extended(root, tape, None).error
    && Last(Extended(s, tape, None).images) == Last(Extended(root, tape, None).images)
  }

  /** The day the run is refused at already has, in `s`, a line with all its files there: one a pull brought ahead of them,
      and the run completed before it was refused. */
  predicate Overtaken(s: Root, refusal: Option<Error>) {
    && refusal.Some? && refusal.value.OtherBytes?
    && var line := ReadLine(s, DayOf(refusal.value.dest));
      line.Ok? && AllPresent(s, line.value)
  }

  lemma RunsFrom(s: Root, tape: Tape, line: Line, pairs: set<Pair>, plan: seq<Planned>)
    requires LineAt(BASE_DAY) in s && Head(s) == Ok(line) && Pairs(s) == Ok(pairs)
    requires Plan(tape, pairs, line, None).Ok? && plan == Plan(tape, pairs, line, None).value.0
    ensures Extended(s, tape, None) == PlaceAll(s, Items(plan))
  {
    hide Head, Pairs, Plan, PlaceAll, Items;
  }

  /** A rerun starts no earlier than at the head, so it is not refused at a day that has a whole line. */
  lemma OvertakenDiffers(s: Root, tape: Tape, refusal: Option<Error>)
    requires Overtaken(s, refusal)
    ensures Extended(s, tape, None).error != refusal
  {
    hide Extended, Pairs, Plan, PlaceAll, Items, NewestWhole, Follows, Ready, ReadLine, AllPresent, DestsOf;
    if Extended(s, tape, None).error == refusal {
      PlacesOrRefuses(s, tape, None);
      var line, pairs, plan :| Ready(s, tape, None, line, pairs, plan);
      RefusalAhead(s, tape, line, pairs, plan);
      WholeAtHead(s, line, DayOf(refusal.value.dest));
      assert false;
    }
  }

  lemma WholeAtHead(s: Root, line: Line, day: int)
    requires NewestWhole(s, line) && ReadLine(s, day).Ok? && AllPresent(s, ReadLine(s, day).value)
    ensures day <= line.day
  {
    hide WalkChain, ReadLine, AllPresent;
    ReadUnder(s, day);
    LineIn(s, day);
  }

  /** A run is refused only past the head it started from. */
  lemma RefusalAhead(root: Root, tape: Tape, line: Line, pairs: set<Pair>, plan: seq<Planned>)
    requires Ready(root, tape, None, line, pairs, plan) && Extended(root, tape, None).error.Some?
    ensures NewestWhole(root, line)
    ensures Extended(root, tape, None).error.value.OtherBytes? && DayOf(Extended(root, tape, None).error.value.dest) > line.day
  {
    hide Extended, Pairs, Plan, PlaceAll, Items, NewestWhole, Follows, DestsOf, DayOf, Dests;
    PlaceRefusal(root, Items(plan));
    var dest := Extended(root, tape, None).error.value.dest;
    ItemsOfPlan(plan, dest);
    var i :| 0 <= i < |plan| && dest in DestsOf(plan[i]);
    PlannedDay(plan, i, line, pairs);
    DestDay(plan[i], dest);
  }

  /** The day a plan is refused at: all before it is accepted, and it is not. */
  lemma {:induction false} RefusedDay(root: Root, plan: seq<Planned>) returns (c: nat)
    requires PlaceAll(root, Items(plan)).error.Some?
    ensures c < |plan| && PlaceAll(root, Items(plan[..c])).error.None?
    ensures PlaceAll(root, Items(plan[..c + 1])) == PlaceAll(root, Items(plan))
    ensures var refusal := PlaceAll(root, Items(plan)).error.value; refusal.OtherBytes? && refusal.dest in Dests(ItemsOf(plan[c]))
  {
    NoPlan(root);
    hide PlaceAll, ItemsOf, Dests;
    var front, last := plan[..|plan| - 1], plan[|plan| - 1];
    assert Items(plan) == Items(front) + ItemsOf(last);
    hide Items;
    PlaceSum(root, Items(front), ItemsOf(last));
    if PlaceAll(root, Items(front)).error.Some? {
      c := RefusedDay(root, front);
      assert front[..c] == plan[..c] && front[..c + 1] == plan[..c + 1] && front[c] == plan[c];
    } else {
      c := |plan| - 1;
      PlaceRefusal(Whole(root, front), ItemsOf(last));
      assert plan[..c + 1] == plan;
    }
  }

  lemma NoPlan(root: Root)
    ensures PlaceAll(root, Items([])).error.None?
  {
  }

  lemma AcceptedFirst(root: Root, items: seq<Item>, m: nat)
    requires m <= |items| && PlaceAll(root, items).error.None?
    ensures PlaceAll(root, items[..m]).error.None?
  {
    hide PlaceAll;
    if PlaceAll(root, items[..m]).error.Some? { PlaceStops(root, items, m); }
  }

  /** The items of the first days come first. */
  lemma FirstDays(plan: seq<Planned>, c: nat, m: nat)
    requires c <= |plan| && m <= |Items(plan)|
    ensures |Items(plan[..c])| <= |Items(plan)| && Items(plan)[..|Items(plan[..c])|] == Items(plan[..c])
    ensures m <= |Items(plan[..c])| ==> Items(plan)[..m] == Items(plan[..c])[..m]
  {
    ItemsSplit(plan, c);
    hide Items;
  }

  lemma CarriesThose(items: seq<Item>, s: Root, whole: Root)
    requires Carries(items, whole) && Within(s, whole) && Dests(items) <= s.Keys
    ensures Carries(items, s)
  {
    forall i | 0 <= i < |items| ensures items[i].0 in s && s[items[i].0] == items[i].1 {
      assert items[i].0 in Dests(items);
    }
  }

  /** Restarted from any of its lines, on what its first items left, a plan ends as it would have. */
  lemma RestartsAlike(s: Root, root: Root, tape: Tape, line: Line, pairs: set<Pair>, plan: seq<Planned>, m: nat, h: nat)
    requires Ready(root, tape, None, line, pairs, plan) && h <= |plan| && m <= |Items(plan)|
    requires PlaceAll(root, Items(plan)[..m]).error.None? && s == Last(PlaceAll(root, Items(plan)[..m]).images)
    requires NewestWhole(s, TopLine(line, plan, h)) && Pairs(s) == Ok(pairs) && Carries(Items(plan[..h]), s) && LineAt(BASE_DAY) in s
    ensures Reruns(s, root, tape)
  {
    hide Extended, Pairs, Plan, PlaceAll, Items, NewestWhole, Follows, Head, Carries, DaysRise;
    HeadExactly(s, TopLine(line, plan, h));
    PlanResumes(tape, pairs, line, h);
    RunsFrom(s, tape, TopLine(line, plan, h), pairs, plan[h..]);
    ItemsSplit(plan, h);
    PlacedAlready(s, Items(plan[..h]));
    PlaceSum(s, Items(plan[..h]), Items(plan[h..]));
    PlaceAgain(root, Items(plan), m);
  }

  /** The days' items are in a root that has their destinations and disagrees with nothing placed. */
  lemma DaysCarried(s: Root, root: Root, line: Line, pairs: set<Pair>, plan: seq<Planned>, j: nat, h: nat)
    requires StopOf(s, root, line, pairs, plan, j) && h <= |plan|
    requires forall i, d :: 0 <= i < h && d in DestsOf(plan[i]) ==> d in s
    ensures Carries(Items(plan[..h]), s)
  {
    hide PlaceAll, Items, NewestWhole, Follows, Pairs, Dests, DestsOf, Carries, DayFiles;
    var whole, first := Whole(root, plan), plan[..h];
    PlacedExactly(root, Items(plan));
    ItemsSplit(plan, h);
    CarriesFirst(Items(plan), |Items(first)|, whole);
    assert Items(plan)[..|Items(first)|] == Items(first);
    forall i | 0 <= i < h ensures DayFiles(first[i]) && first[i] == plan[i] {
      PlannedDay(plan, i, line, pairs);
    }
    forall d | d in Dests(Items(first)) ensures d in s {
      ItemsOfPlan(first, d);
    }
    CarriesThose(Items(first), s, whole);
  }

  /** Stopped while the days that are accepted are being placed. */
  lemma RerunEarly(s: Root, root: Root, tape: Tape, line: Line, pairs: set<Pair>, plan: seq<Planned>, c: nat, m: nat)
    requires Ready(root, tape, None, line, pairs, plan) && c <= |plan| && PlaceAll(root, Items(plan[..c])).error.None?
    requires m <= |Items(plan[..c])| <= |Items(plan)| && s == Last(PlaceAll(root, Items(plan)[..m]).images)
    ensures Reruns(s, root, tape)
    ensures ReadLine(s, line.day + c + 1).Ok? ==> !AllPresent(s, ReadLine(s, line.day + c + 1).value)
  {
    hide Extended, Pairs, Plan, PlaceAll, Items, NewestWhole, Follows, DaysRise, Stopped, Carries, DestsOf, ReadLine, AllPresent, Days;
    var first := plan[..c];
    FollowsFirst(plan, c, line, pairs);
    FirstDays(plan, c, m);
    AcceptedFirst(root, Items(first), m);
    var j := StopAt(root, first, m);
    assert StopOf(s, root, line, pairs, first, j);
    var h := HeadAfterStop(s, root, line, pairs, first, j);
    PairsKept(s, root, line, pairs, first, j);
    DaysCarried(s, root, line, pairs, first, j, h);
    assert first[..h] == plan[..h] && TopLine(line, first, h) == TopLine(line, plan, h);
    RestartsAlike(s, root, tape, line, pairs, plan, m, h);
    NextNotWhole(s, root, line, pairs, first, j);
  }

  lemma NextNotWhole(s: Root, root: Root, line: Line, pairs: set<Pair>, plan: seq<Planned>, j: nat)
    requires StopOf(s, root, line, pairs, plan, j) && j <= |plan|
    ensures var d := line.day + |plan| + 1; ReadLine(s, d).Ok? ==> !AllPresent(s, ReadLine(s, d).value)
  {
    hide StopOf, ReadLine, AllPresent, Days;
    var d := line.day + |plan| + 1;
    if ReadLine(s, d).Ok? {
      ReadUnder(s, d);
      LineIn(s, d);
      LackingStill(s, root, line, pairs, plan, j, d);
    }
  }

  /** `s` is `base` with files of one day more, and no line. */
  ghost predicate DayMore(base: Root, s: Root, day: int) {
    Within(base, s) && forall d :: d in s && d !in base ==> d.FileAt? && d.path.DayFile? && d.path.day == day
  }

  lemma OneDayMore(root: Root, plan: seq<Planned>, c: nat, r: nat)
    requires c < |plan| && DaysRise(plan) && r < |ItemsOf(plan[c])|
    requires PlaceAll(root, Items(plan[..c])).error.None? && PlaceAll(root, Items(plan[..c]) + ItemsOf(plan[c])[..r]).error.None?
    ensures DayMore(Whole(root, plan[..c]), Last(PlaceAll(root, Items(plan[..c]) + ItemsOf(plan[c])[..r]).images), plan[c].line.day)
  {
    hide PlaceAll, Items, Dests, ItemsOf, Carries;
    var some := ItemsOf(plan[c])[..r];
    PlaceSum(root, Items(plan[..c]), some);
    PlacedExactly(Whole(root, plan[..c]), some);
    ItemsAre(plan[c], r);
    OneDayFiles(plan, c, r);
  }

  /** Files of one day more leave the head where it was, unless they complete a line of that day. */
  lemma HeadStays(base: Root, s: Root, top: Line, day: int)
    requires NewestWhole(base, top) && DayMore(base, s, day)
    requires ReadLine(s, day).Ok? ==> !AllPresent(s, ReadLine(s, day).value)
    ensures NewestWhole(s, top) && Pairs(s) == Pairs(base)
  {
    NewestWholeDay(base, top);
    assert FilesMore(base, s);
    SameLines(base, s);
    LineIn(base, top.day);
    hide WalkChain, ReadLine, Pairs, Days, Parse;
    WalkSame(base, s, top.day);
    forall d | d in Days(s) && d > top.day ensures Lacking(s, d) {
      LineIn(base, d);
      assert Lacking(base, d) && ReadLine(s, d) == ReadLine(base, d);
      if d != day {
        var k :| k in ReadLine(base, d).value.files && FileAt(k) !in base;
        ReadUnder(base, d);
        FilesOfDay(d, base[LineAt(d)], k);
      }
    }
  }

  /** Stopped among the files of the day the run is refused at, unless they completed a line found there. */
  lemma RerunLate(s: Root, root: Root, tape: Tape, line: Line, pairs: set<Pair>, plan: seq<Planned>, c: nat, r: nat)
    requires Ready(root, tape, None, line, pairs, plan) && c < |plan| && PlaceAll(root, Items(plan[..c])).error.None?
    requires r < |ItemsOf(plan[c])| && |Items(plan[..c])| + r <= |Items(plan)|
    requires var first := Items(plan)[..|Items(plan[..c])| + r];
      first == Items(plan[..c]) + ItemsOf(plan[c])[..r] && PlaceAll(root, first).error.None? && s == Last(PlaceAll(root, first).images)
    requires ReadLine(s, line.day + c + 1).Ok? ==> !AllPresent(s, ReadLine(s, line.day + c + 1).value)
    ensures Reruns(s, root, tape)
  {
    hide Extended, Pairs, Plan, PlaceAll, Items, ItemsOf, NewestWhole, Follows, DaysRise, Carries, DestsOf, ReadLine, AllPresent, Days, StopOf, Dests;
    var first, base := plan[..c], Whole(root, plan[..c]);
    FollowsFirst(plan, c, line, pairs);
    WholeIsStop(root, line, pairs, first);
    var h := HeadAfterStop(base, root, line, pairs, first, c);
    assert h == c && TopLine(line, first, c) == TopLine(line, plan, c);
    PairsKept(base, root, line, pairs, first, c);
    PlannedDay(plan, c, line, pairs);
    OneDayMore(root, plan, c, r);
    HeadStays(base, s, TopLine(line, plan, c), line.day + c + 1);
    PlacedExactly(root, Items(first));
    CarriesWithin(Items(first), base, s);
    RestartsAlike(s, root, tape, line, pairs, plan, |Items(first)| + r, c);
  }

  /** Stopped after any of its renames and run again on the same tape, an extension ends as the uninterrupted run ends, in
      the same tree and with the same refusal if that one refuses, exactly when the stop has no whole line of the day that
      one is refused at. */
  lemma StopAndRerun(root: Root, tape: Tape, n: nat)
    requires n < |Extended(root, tape, None).images|
    ensures var s := Extended(root, tape, None).images[n];
      Reruns(s, root, tape) <==> !Overtaken(s, Extended(root, tape, None).error)
  {
    hide Extended, Ready, Overtaken, Reruns;
    var s, refusal := Extended(root, tape, None).images[n], Extended(root, tape, None).error;
    if Overtaken(s, refusal) {
      OvertakenDiffers(s, tape, refusal);
      RerunsMeans(s, root, tape);
    } else {
      PlacesOrRefuses(root, tape, None);
      if line, pairs, plan :| Ready(root, tape, None, line, pairs, plan) {
        StopReruns(root, tape, n, line, pairs, plan);
      } else {
        assert s == root;
        RerunsItself(root, tape);
      }
    }
  }

  lemma RerunsMeans(s: Root, root: Root, tape: Tape)
    ensures Reruns(s, root, tape) ==> Extended(s, tape, None).error == Extended(root, tape, None).error
  {
  }

  lemma RerunsItself(root: Root, tape: Tape)
    ensures Reruns(root, root, tape)
  {
  }

  lemma StopReruns(root: Root, tape: Tape, n: nat, line: Line, pairs: set<Pair>, plan: seq<Planned>)
    requires Ready(root, tape, None, line, pairs, plan) && n < |Extended(root, tape, None).images|
    requires !Overtaken(Extended(root, tape, None).images[n], Extended(root, tape, None).error)
    ensures Reruns(Extended(root, tape, None).images[n], root, tape)
  {
    hide Extended, Pairs, Plan, PlaceAll, Items, ItemsOf, NewestWhole, Follows, DaysRise, Reruns, ReadLine, AllPresent, Dests, DestsOf, DayOf;
    var s := Extended(root, tape, None).images[n];
    var m := ImageIsPrefix(root, Items(plan), n);
    if Extended(root, tape, None).error.None? {
      assert plan[..|plan|] == plan;
      RerunEarly(s, root, tape, line, pairs, plan, |plan|, m);
    } else {
      var c := RefusedDay(root, plan);
      FirstDays(plan, c, m);
      if m <= |Items(plan[..c])| {
        RerunEarly(s, root, tape, line, pairs, plan, c, m);
      } else {
        PlannedDay(plan, c, line, pairs);
        ItemsAre(plan[c], 0);
        DestDay(plan[c], Extended(root, tape, None).error.value.dest);
        StopsInDay(root, plan, c, m);
        RerunLate(s, root, tape, line, pairs, plan, c, m - |Items(plan[..c])|);
      }
    }
  }

  /** What is accepted past the days before the refused one is some files of that day. */
  lemma StopsInDay(root: Root, plan: seq<Planned>, c: nat, m: nat)
    requires c < |plan| && PlaceAll(root, Items(plan[..c + 1])).error.Some?
    requires |Items(plan[..c])| <= m <= |Items(plan)| && PlaceAll(root, Items(plan)[..m]).error.None?
    ensures var r := m - |Items(plan[..c])|;
      r < |ItemsOf(plan[c])| && Items(plan)[..m] == Items(plan[..c]) + ItemsOf(plan[c])[..r]
  {
    hide PlaceAll, ItemsOf;
    var next := plan[..c + 1];
    assert next[..c] == plan[..c];
    assert Items(next) == Items(plan[..c]) + ItemsOf(plan[c]);
    hide Items;
    FirstDays(plan, c + 1, m);
    if |Items(next)| <= m {
      assert Items(plan)[..m][..|Items(next)|] == Items(plan)[..|Items(next)|];
      AcceptedFirst(root, Items(plan)[..m], |Items(next)|);
    }
    assert Items(plan)[..m] == Items(next)[..m];
  }

  // ---- a run that is overtaken

  const FRAME: Content := Frame([])
  const BASE_ENTRY: Content := Entry(BASE_DAY, Null, map[BaseFile(0) := Hex(Sha256(FRAME))], map[], Some(map[]))
  const BASE_LINE: Line := Line(BASE_DAY, None, map[BaseFile(0) := Sha256(FRAME)], map[], map[], Sha256(BASE_ENTRY))
  const FIRST: Path := DayFile(0, BASE_DAY + 1)
  const PULLED: Content := Entry(BASE_DAY + 1, Below(Hex(Sha256(BASE_ENTRY))), map[FIRST := Hex(Sha256(Blob(1)))], map[], None)

  /** One pair's base, and the next day's line as a pull brings it from a set that attested other bytes, its file still to
      come. */
  const PULLED_SET: Root := map[LineAt(BASE_DAY) := BASE_ENTRY, FileAt(BaseFile(0)) := FRAME, LineAt(BASE_DAY + 1) := PULLED]

  const ONE_FINAL: Tape := map[(0, BASE_DAY + 1) := Final(Blob(2), true)]

  lemma PulledReads()
    ensures Parse(BASE_DAY, BASE_ENTRY) == Ok(BASE_LINE)
    ensures Parse(BASE_DAY + 1, PULLED).Ok?
    ensures var line := Parse(BASE_DAY + 1, PULLED).value;
      line.prev == Some(BASE_LINE.sha) && line.files.Keys == {FIRST} && line.holes == map[] && line.notes == map[]
  {
    assert Digests(BASE_ENTRY.files) == BASE_LINE.files;
    assert BaseFile(0) in BASE_LINE.files;
  }

  lemma PulledDays()
    ensures Days(PULLED_SET) == {BASE_DAY, BASE_DAY + 1} && Least(Days(PULLED_SET)) == BASE_DAY
  {
    LineIn(PULLED_SET, BASE_DAY);
    LineIn(PULLED_SET, BASE_DAY + 1);
  }

  lemma PulledPairs()
    ensures Pairs(PULLED_SET) == Ok({0})
    ensures NamedPairs(Parse(BASE_DAY + 1, PULLED).value) == {0}
  {
    PulledDays();
    PulledReads();
    assert PairOf(BaseFile(0)) == 0 && PairOf(FIRST) == 0 && BaseFile(0) in BASE_LINE.files;
    assert NamedPairs(BASE_LINE) == {0};
  }

  lemma PulledHead()
    ensures Head(PULLED_SET) == Ok(BASE_LINE)
  {
    var root := PULLED_SET;
    PulledDays();
    PulledReads();
    PulledPairs();
    hide Parse;
    assert FileAt(FIRST) !in root;
    assert ReadLine(root, BASE_DAY + 1) == Parse(BASE_DAY + 1, PULLED);
    assert Lacking(root, BASE_DAY + 1);
    AscendingUnique(set d | d in Days(root) && d <= BASE_DAY, [BASE_DAY]);
    assert Walked(root, BASE_DAY, {0}, None) == Ok(BASE_LINE);
    assert Descend(root, [BASE_DAY], 0, {0}, Some(BASE_LINE)) == Ok([]);
    assert WalkChain(root, BASE_DAY).Ok?;
    HeadExactly(root, BASE_LINE);
  }

  lemma OneFinalDays()
    ensures FinalDays(ONE_FINAL, 0) == {BASE_DAY + 1} && NewestFinal(ONE_FINAL, 0) == Some(BASE_DAY + 1)
  {
    assert (0, BASE_DAY + 1) in ONE_FINAL && (0, BASE_DAY + 1).1 in FinalDays(ONE_FINAL, 0);
    AscendingUnique({BASE_DAY + 1}, [BASE_DAY + 1]);
  }

  /** From a line of the final's day there is nothing to plan. */
  lemma NothingToPlan(line: Line)
    requires line.day == BASE_DAY + 1 && line.notes == map[]
    ensures Plan(ONE_FINAL, {0}, line, None) == Ok(([], false))
  {
    OneFinalDays();
    assert 0 !in ClosedPairs(line, {0});
    assert 0 in Waiting(ONE_FINAL, {0}, line, None);
    hide FinalDays, NewestFinal, Ahead, PlanDay;
    assert !HasPast(ONE_FINAL, 0, BASE_DAY + 2, BASE_DAY + 2 + RESCAN_DAYS);
    assert !IsEnded(ONE_FINAL, {0}, line);
  }

  lemma OneCopied()
    ensures Held(ONE_FINAL, {0}, BASE_DAY + 1) == {0} && Copied(ONE_FINAL, {0}, BASE_DAY + 1) == map[FIRST := Blob(2)]
  {
    assert Held(ONE_FINAL, {0}, BASE_DAY + 1) == {0};
  }

  lemma OnePlanned(p: Planned)
    requires p == PlanDay(ONE_FINAL, {0}, BASE_LINE, None)
    ensures p.line.day == BASE_DAY + 1 && p.line.notes == map[] && p.files == map[FIRST := Blob(2)] && p.entry != PULLED
  {
    hide PlanDay, Held, Copied, Digests;
    PlanDayIs(ONE_FINAL, {0}, BASE_LINE, None);
    OneCopied();
    assert p.line.holes.Keys == {};
    assert p.line.notes == map[];
    assert p.entry.files[FIRST] == Hex(Sha256(Blob(2)));
  }

  lemma OneIsReady()
    ensures !IsEnded(ONE_FINAL, {0}, BASE_LINE) && Waiting(ONE_FINAL, {0}, BASE_LINE, None) == {}
    ensures !Forged(ONE_FINAL, 0, BASE_DAY + 1)
  {
    OneCopied();
    assert 0 !in ClosedPairs(BASE_LINE, {0});
  }

  lemma OneToPlan() returns (p: Planned)
    ensures Plan(ONE_FINAL, {0}, BASE_LINE, None) == Ok(([p], false))
    ensures p.line.day == BASE_DAY + 1 && p.files == map[FIRST := Blob(2)] && p.entry != PULLED
  {
    hide PlanDay, Ahead, Held, Waiting, IsEnded, Forged, HasPast;
    p := PlanDay(ONE_FINAL, {0}, BASE_LINE, None);
    OnePlanned(p);
    OneIsReady();
    NothingToPlan(p.line);
    assert Plan(ONE_FINAL, {0}, p.line, None).value.0 == [];
    assert [p] + [] == [p];
  }

  lemma OneDayItems(p: Planned)
    requires p.line.day == BASE_DAY + 1 && p.files == map[FIRST := Blob(2)]
    ensures Items([p]) == [(FileAt(FIRST), Blob(2)), (LineAt(BASE_DAY + 1), p.entry)]
  {
    ItemsOne(p);
    assert PairOf(FIRST) == 0 && FIRST in p.files;
    assert (set k | k in p.files :: PairOf(k)) == {0};
    AscendingUnique({0}, [0]);
    assert FileItems(p.files, BASE_DAY + 1, []) == [];
    assert [0][..0] == [];
    assert FileItems(p.files, BASE_DAY + 1, [0]) == [(FileAt(FIRST), Blob(2))];
  }

  lemma PlaceTwo(root: Root, a: Item, b: Item)
    requires a.0 !in root && b.0 in root && b.0 != a.0 && root[b.0] != b.1
    ensures PlaceAll(root, [a, b]) == Outcome([root, root[a.0 := a.1]], Some(OtherBytes(b.0)))
  {
    assert [a, b][..1] == [a] && [a][..0] == [];
    assert PlaceAll(root, [a]) == Outcome([root, root[a.0 := a.1]], None);
  }

  lemma PulledRun()
    ensures Extended(PULLED_SET, ONE_FINAL, None)
      == Outcome([PULLED_SET, PULLED_SET[FileAt(FIRST) := Blob(2)]], Some(OtherBytes(LineAt(BASE_DAY + 1))))
  {
    hide Extended, Plan, Items, Pairs, Head, PlaceAll;
    PulledHead();
    PulledPairs();
    var p := OneToPlan();
    OneDayItems(p);
    RunsFrom(PULLED_SET, ONE_FINAL, BASE_LINE, {0}, [p]);
    PlaceTwo(PULLED_SET, (FileAt(FIRST), Blob(2)), (LineAt(BASE_DAY + 1), p.entry));
  }

  lemma PulledMore(s: Root, line: Line)
    requires s == PULLED_SET[FileAt(FIRST) := Blob(2)] && Parse(BASE_DAY + 1, PULLED) == Ok(line)
    ensures LineAt(BASE_DAY) in s && Days(s) == {BASE_DAY, BASE_DAY + 1} && Pairs(s) == Ok({0}) && Within(PULLED_SET, s)
    ensures ReadLine(s, BASE_DAY + 1) == Ok(line) && AllPresent(s, line) && ReadLine(s, BASE_DAY) == Ok(BASE_LINE)
  {
    PulledDays();
    PulledReads();
    PulledPairs();
    hide Parse, NamedPairs;
    SameLines(PULLED_SET, s);
    hide Days, Pairs;
    assert PairsNamed(line, {0});
  }

  lemma PulledWhole(s: Root, line: Line)
    requires s == PULLED_SET[FileAt(FIRST) := Blob(2)] && Parse(BASE_DAY + 1, PULLED) == Ok(line)
    ensures LineAt(BASE_DAY) in s && Pairs(s) == Ok({0}) && Head(s) == Ok(line)
    ensures Overtaken(s, Some(OtherBytes(LineAt(BASE_DAY + 1))))
  {
    PulledMore(s, line);
    PulledReads();
    PulledPairs();
    PulledHead();
    PulledDays();
    HeadExactly(PULLED_SET, BASE_LINE);
    hide Parse, WalkChain, Head, Pairs, NamedPairs, Days, ReadLine, AllPresent;
    WalkSame(PULLED_SET, s, BASE_DAY);
    WalkMore(s, BASE_LINE, line);
    HeadExactly(s, line);
  }

  /** Refused at the pulled line once it has placed the file that line lacked, and run again on the set as it then stands,
      the extension starts from the pulled line and is refused nothing. */
  lemma OvertakenReached()
    ensures var run := Extended(PULLED_SET, ONE_FINAL, None);
      && |run.images| == 2 && run.error == Some(OtherBytes(LineAt(BASE_DAY + 1)))
      && Extended(run.images[1], ONE_FINAL, None) == Outcome([run.images[1]], None)
      && Overtaken(run.images[1], run.error) && !Reruns(run.images[1], PULLED_SET, ONE_FINAL)
  {
    PulledRun();
    PulledReads();
    var s, line := PULLED_SET[FileAt(FIRST) := Blob(2)], Parse(BASE_DAY + 1, PULLED).value;
    PulledWhole(s, line);
    ParsedFrom(BASE_DAY + 1, PULLED);
    NothingToPlan(line);
    RunsFrom(s, ONE_FINAL, line, {0}, []);
    PlaceNone(s);
    assert Items([]) == [];
    hide Extended, Overtaken, Parse, Plan, Head, Pairs;
  }

  /** At every moment of a run, with or without a close, refused or not, a line the run has written has every file it
      lists. */
  lemma LinesHaveTheirFiles(root: Root, tape: Tape, close: Option<Close>, n: nat, d: int)
    requires n < |Extended(root, tape, close).images|
    requires d in Days(Extended(root, tape, close).images[n]) && d !in Days(root)
    ensures var s := Extended(root, tape, close).images[n];
      ReadLine(s, d).Ok? && AllPresent(s, ReadLine(s, d).value)
  {
    hide Extended, PlaceAll, Items, NewestWhole, Follows, Pairs, Plan, DaysRise, ReadLine, AllPresent, Days, StopOf, FilesMore;
    var s := Extended(root, tape, close).images[n];
    PlacesOrRefuses(root, tape, close);
    var line, pairs, plan :| Ready(root, tape, close, line, pairs, plan);
    var m := ImageIsPrefix(root, Items(plan), n);
    var j, r := PrefixStop(root, line, pairs, plan, m);
    var base := Whole(root, plan[..j]);
    SameLines(base, s);
    LinesOfStop(base, root, line, pairs, plan[..j], j, d);
    LineIn(base, d);
    PresentWithMore(base, s, ReadLine(base, d).value);
  }

  lemma PresentWithMore(base: Root, s: Root, line: Line)
    requires FilesMore(base, s) && AllPresent(base, line)
    ensures AllPresent(s, line)
  {
  }

  lemma LinesOfStop(s: Root, root: Root, line: Line, pairs: set<Pair>, plan: seq<Planned>, j: nat, d: int)
    requires StopOf(s, root, line, pairs, plan, j) && d in Days(s) && d !in Days(root)
    ensures ReadLine(s, d).Ok? && AllPresent(s, ReadLine(s, d).value)
  {
    hide StopOf, ReadLine, WalkChain, AllPresent, Days, DestsOf;
    StoppedDay(s, root, line, pairs, plan, j, d);
    var h := d - line.day;
    forall i | 0 <= i < h ensures LineAt(plan[i].line.day) in s {
      DayInStop(s, root, line, pairs, plan, j, i);
    }
    PlacedWalk(s, root, line, pairs, plan, j, h);
    DayInStop(s, root, line, pairs, plan, j, h - 1);
  }

  lemma DayInStop(s: Root, root: Root, line: Line, pairs: set<Pair>, plan: seq<Planned>, j: nat, i: nat)
    requires StopOf(s, root, line, pairs, plan, j) && i < j && i < |plan|
    ensures LineAt(plan[i].line.day) in s && AllPresent(s, plan[i].line)
  {
    hide PlaceAll, Items, NewestWhole, Follows, Pairs, AllPresent, DestsOf, Stopped;
    StoppedHas(s, root, Whole(root, plan), plan, j, i);
    DestsOfDay(plan[i]);
    PlannedPresent(s, plan, i, line, pairs);
  }

  /** What a run writes, the reader accepts, with or without a close: the head of the finished set is the last line
      planned, and its whole chain walks. */
  lemma FinishedSetWalks(root: Root, tape: Tape, close: Option<Close>)
    requires Extended(root, tape, close).error.None?
    ensures var final := Last(Extended(root, tape, close).images);
      && Head(final).Ok? && WalkChain(final, Head(final).value.day).Ok?
      && (forall d :: d in Days(final) && d !in Days(root) ==> d <= Head(final).value.day)
  {
    hide Extended, PlaceAll, Items, Follows, Pairs, Plan, DaysRise, ReadLine, WalkChain, Ready, Head, Days, NewestWhole, StopOf;
    var images := Extended(root, tape, close).images;
    var final := Last(images);
    var line, pairs, plan, j := ImageIsStop(root, tape, close, |images| - 1);
    var h := HeadAfterStop(final, root, line, pairs, plan, j);
    var top := TopLine(line, plan, h);
    HeadExactly(final, top);
    NewestWholeWalks(final, top);
    forall d | d in Days(final) && d !in Days(root) ensures d <= top.day {
      NewDayBehind(final, root, line, pairs, plan, j, h, d);
    }
  }

  lemma NewestWholeWalks(root: Root, line: Line)
    requires NewestWhole(root, line)
    ensures WalkChain(root, line.day).Ok?
  {
  }

  lemma NewDayBehind(s: Root, root: Root, line: Line, pairs: set<Pair>, plan: seq<Planned>, j: nat, h: nat, d: int)
    requires StopOf(s, root, line, pairs, plan, j) && j <= h <= |plan| && d in Days(s) && d !in Days(root)
    ensures d <= TopLine(line, plan, h).day
  {
    hide PlaceAll, Items, Follows, Pairs, NewestWhole, Stopped, Days, DestsOf;
    StoppedDay(s, root, line, pairs, plan, j, d);
    if h > 0 { PlannedDay(plan, h - 1, line, pairs); }
  }
}
