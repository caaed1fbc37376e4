/** The chained rolling set of `cli/data/rolling.py`: every day attested by a write-once line that names the digest of the
    line before it and of each file of its day. Days are whole days since the epoch. */
module Rolling {
  import opened Prelude
  import opened Sorting

  type Pair = int

  datatype Bar = Bar(ts: int, body: int)

  datatype Path = BaseFile(pair: Pair) | DayFile(pair: Pair, day: int) | Stray(n: int)

  /** A JSON text: the hexadecimal form of a digest, or anything else. */
  datatype Text = Hex(digest: Digest) | Word(n: int)

  datatype Prev = Null | Below(text: Text)

  datatype Note = Closed(pair: Pair) | Remark(n: int)

  /** The bytes of a file: a frame, an index line in its canonical form, or anything else. */
  datatype Content =
    | Frame(bars: seq<Bar>)
    | Entry(day: int, prev: Prev, files: map<Path, Text>, holes: map<Pair, Text>, notes: Option<map<Note, Text>>)
    | Blob(n: int)

  /** SHA-256, taken as injective. */
  datatype Digest = Sha256(content: Content)

  datatype Dest = LineAt(day: int) | FileAt(path: Path)

  /** What a set's root holds. */
  type Root = map<Dest, Content>

  datatype Line = Line(
    day: int,
    prev: Option<Digest>,
    files: map<Path, Digest>,
    holes: map<Pair, Text>,
    notes: map<Note, Text>,
    sha: Digest)

  datatype Error =
    | Absent | NotALine | WrongKeys | WrongDay | NotADigest | BadBase | BadPrev | BadDayFile | BadNotes
    | NoBase | NotOldest | PairsNotNamed | NoLine | DayMissing | Unlinked | Incomplete
    | NotAPair | NotAGrid | Hole | FileAbsent | FileDiffers | NotAFrame
    | Unattested | OtherBytes(dest: Dest) | CloseRefused

  const BASE_GRID: int := 15
  const GRIDS: set<int> := {15, 60, 240, 1440}
  const BASE_DAY: int := 20726
  const RESCAN_DAYS: int := 3
  const DAY: int := 86_400_000_000

  function Days(root: Root): set<int> {
    set k | k in root && k.LineAt? :: k.day
  }

  function PairOf(path: Path): Pair {
    match path
    case BaseFile(pair) => pair
    case DayFile(pair, _) => pair
    case Stray(n) => n
  }

  // ---- one line

  function Digests(files: map<Path, Text>): map<Path, Digest>
    requires forall k :: k in files ==> files[k].Hex?
  {
    map k | k in files :: files[k].digest
  }

  /** `_read` of the bytes found under the day's name. */
  function Parse(day: int, content: Content): Result<Line, Error> {
    if !content.Entry? then Err(NotALine)
    else if content.prev.Null? && content.notes.None? then Err(WrongKeys)
    else if content.day != day then Err(WrongDay)
    else if exists k :: k in content.files && !content.files[k].Hex? then Err(NotADigest)
    else
      var notes := if content.notes.Some? then content.notes.value else map[];
      var files := Digests(content.files);
      if content.prev.Null? then
        if files == map[] || content.holes != map[] || exists k :: k in files && !k.BaseFile? then Err(BadBase)
        else Ok(Line(day, None, files, content.holes, notes, Sha256(content)))
      else if !content.prev.text.Hex? then Err(BadPrev)
      else if exists k :: k in files && !(k.DayFile? && k.day == day) then Err(BadDayFile)
      else if content.notes.Some? && (notes == map[] || exists k :: k in notes && !(k.Closed? && k.pair in content.holes)) then Err(BadNotes)
      else Ok(Line(day, Some(content.prev.text.digest), files, content.holes, notes, Sha256(content)))
  }

  function Read(root: Root, day: int): Result<Line, Error> {
    if LineAt(day) !in root then Err(Absent) else Parse(day, root[LineAt(day)])
  }

  function NamedPairs(line: Line): set<Pair> {
    set k | k in line.files :: PairOf(k)
  }

  /** Files and holes name each of the set's pairs once. */
  predicate PairsNamed(line: Line, pairs: set<Pair>) {
    NamedPairs(line) * line.holes.Keys == {} && NamedPairs(line) + line.holes.Keys == pairs
  }

  function Pairs(root: Root): Result<set<Pair>, Error> {
    if Days(root) == {} then Err(NoBase)
    else
      var base :- Read(root, Least(Days(root)));
      if base.prev.Some? then Err(NotOldest) else Ok(NamedPairs(base))
  }

  function ReadLine(root: Root, day: int): Result<Line, Error> {
    var line :- Read(root, day);
    if line.prev.None? then Ok(line)
    else
      var pairs :- Pairs(root);
      if PairsNamed(line, pairs) then Ok(line) else Err(PairsNotNamed)
  }

  // ---- the chain

  /** One line of a walk, below the line `after`. */
  function Walked(root: Root, day: int, pairs: set<Pair>, after: Option<Line>): Result<Line, Error> {
    var line :- Read(root, day);
    if line.prev.Some? && !PairsNamed(line, pairs) then Err(PairsNotNamed)
    else if after.Some? && after.value.day != line.day + 1 then Err(DayMissing)
    else if after.Some? && after.value.prev != Some(line.sha) then Err(Unlinked)
    else Ok(line)
  }

  /** The lines of the first `n` days, oldest first, walked from the newest down. */
  function Descend(root: Root, days: seq<int>, n: nat, pairs: set<Pair>, after: Option<Line>): Result<seq<Line>, Error>
    requires n <= |days|
  {
    if n == 0 then Ok([])
    else
      var line :- Walked(root, days[n - 1], pairs, after);
      var below :- Descend(root, days, n - 1, pairs, Some(line));
      Ok(below + [line])
  }

  function UpTo(root: Root, day: int): seq<int> {
    Ascending(set d | d in Days(root) && d <= day)
  }

  function WalkChain(root: Root, asOf: int): Result<seq<Line>, Error> {
    if asOf !in Days(root) then Err(NoLine)
    else
      var pairs :- Pairs(root);
      Descend(root, UpTo(root, asOf), |UpTo(root, asOf)|, pairs, None)
  }

  /** What is still to be walked, and the chain walked so far, make the whole. */
  ghost predicate Rest(root: Root, days: seq<int>, n: nat, pairs: set<Pair>, after: Option<Line>, chain: seq<Line>, whole: Result<seq<Line>, Error>)
    requires n <= |days|
  {
    match Descend(root, days, n, pairs, after)
    case Ok(below) => whole == Ok(below + chain)
    case Err(e) => whole == Err(e)
  }

  lemma RestStep(root: Root, days: seq<int>, n: nat, pairs: set<Pair>, after: Option<Line>, chain: seq<Line>, whole: Result<seq<Line>, Error>)
    requires 0 < n <= |days| && Rest(root, days, n, pairs, after, chain, whole)
    ensures match Walked(root, days[n - 1], pairs, after)
            case Ok(line) => Rest(root, days, n - 1, pairs, Some(line), [line] + chain, whole)
            case Err(e) => whole == Err(e)
  {
    hide Walked;
    if Walked(root, days[n - 1], pairs, after).Ok? {
      var line := Walked(root, days[n - 1], pairs, after).value;
      if Descend(root, days, n - 1, pairs, Some(line)).Ok? {
        var below := Descend(root, days, n - 1, pairs, Some(line)).value;
        assert below + [line] + chain == below + ([line] + chain);
      }
    }
  }

  lemma RestEnds(root: Root, days: seq<int>, pairs: set<Pair>, after: Option<Line>, chain: seq<Line>, whole: Result<seq<Line>, Error>)
    ensures Rest(root, days, 0, pairs, after, chain, whole) <==> whole == Ok(chain)
    ensures Rest(root, days, |days|, pairs, None, [], Descend(root, days, |days|, pairs, None))
  {
    assert [] + chain == chain;
    hide Walked;
    if Descend(root, days, |days|, pairs, None).Ok? {
      assert Descend(root, days, |days|, pairs, None).value + [] == Descend(root, days, |days|, pairs, None).value;
    }
  }

  method Walk(root: Root, asOf: int) returns (r: Result<seq<Line>, Error>)
    ensures r == WalkChain(root, asOf)
  {
    hide Walked, Descend, Rest, Pairs, UpTo;
    if asOf !in Days(root) { return Err(NoLine); }
    var pairs :- Pairs(root);
    var days := UpTo(root, asOf);
    ghost var whole := Descend(root, days, |days|, pairs, None);
    var chain: seq<Line> := [];
    var after: Option<Line> := None;
    var n := |days|;
    RestEnds(root, days, pairs, after, chain, whole);
    while n > 0
      invariant 0 <= n <= |days|
      invariant Rest(root, days, n, pairs, after, chain, whole)
      decreases n
    {
      RestStep(root, days, n, pairs, after, chain, whole);
      var line :- Walked(root, days[n - 1], pairs, after);
      chain := [line] + chain;
      after := Some(line);
      n := n - 1;
    }
    RestEnds(root, days, pairs, after, chain, whole);
    return Ok(chain);
  }

  /** A linked chain: a base at the bottom, each day the day after the one below, each `prev` that line's digest. */
  ghost predicate Linked(chain: seq<Line>) {
    && chain != []
    && (forall i :: 0 < i < |chain| ==> LinkAt(chain, i))
  }

  ghost predicate LinkAt(chain: seq<Line>, i: nat)
    requires 0 < i < |chain|
  {
    chain[i].day == chain[i - 1].day + 1 && chain[i].prev == Some(chain[i - 1].sha)
  }

  lemma {:induction false} DescendLinks(root: Root, days: seq<int>, n: nat, pairs: set<Pair>, after: Option<Line>)
    requires n <= |days| && Descend(root, days, n, pairs, after).Ok?
    ensures var chain := Descend(root, days, n, pairs, after).value;
      && |chain| == n
      && (forall i :: 0 <= i < n ==> Read(root, days[i]) == Ok(chain[i]) && (chain[i].prev.Some? ==> PairsNamed(chain[i], pairs)))
      && (forall i :: 0 < i < n ==> LinkAt(chain, i))
      && (n > 0 && after.Some? ==> after.value.day == chain[n - 1].day + 1 && after.value.prev == Some(chain[n - 1].sha))
  {
    hide Read, PairsNamed;
    if n > 0 {
      var line := Walked(root, days[n - 1], pairs, after).value;
      DescendLinks(root, days, n - 1, pairs, Some(line));
      var below := Descend(root, days, n - 1, pairs, Some(line)).value;
      var chain := below + [line];
      forall i | 0 < i < n ensures LinkAt(chain, i) {
        if i < n - 1 { assert LinkAt(below, i); }
      }
    }
  }

  lemma ParsedFrom(day: int, content: Content)
    requires Parse(day, content).Ok?
    ensures Parse(day, content).value.sha == Sha256(content) && Parse(day, content).value.day == day
  {
  }

  lemma NewestOfUpTo(root: Root, asOf: int)
    requires asOf in Days(root)
    ensures var days := UpTo(root, asOf); days != [] && days[|days| - 1] == asOf && days[0] == Least(Days(root))
  {
    hide Days;
    var days := UpTo(root, asOf);
    assert asOf in days;
    var i :| 0 <= i < |days| && days[i] == asOf;
    assert days[|days| - 1] in days;
    assert Least(Days(root)) in days;
    var j :| 0 <= j < |days| && days[j] == Least(Days(root));
    assert days[0] in days;
  }

  /** What a walk returns: a linked chain from the base line to the line asked for, each read under its own day. */
  lemma WalkIsLinked(root: Root, asOf: int)
    requires WalkChain(root, asOf).Ok?
    ensures var chain := WalkChain(root, asOf).value;
      && Linked(chain) && chain[|chain| - 1].day == asOf && chain[0].prev == None
      && (forall i :: 0 <= i < |chain| ==>
           LineAt(chain[i].day) in root && Parse(chain[i].day, root[LineAt(chain[i].day)]) == Ok(chain[i]))
  {
    hide Parse, Least, Ascending, PairsNamed;
    var days := UpTo(root, asOf);
    var pairs := Pairs(root).value;
    NewestOfUpTo(root, asOf);
    DescendLinks(root, days, |days|, pairs, None);
    var chain := WalkChain(root, asOf).value;
    forall i | 0 <= i < |chain|
      ensures LineAt(chain[i].day) in root && Parse(chain[i].day, root[LineAt(chain[i].day)]) == Ok(chain[i])
      ensures chain[i].day == days[i]
    {
      assert Read(root, days[i]) == Ok(chain[i]);
      ParsedFrom(days[i], root[LineAt(days[i])]);
    }
  }

  // ---- a pin determines the data

  lemma TopHasPrev(chain: seq<Line>)
    requires Linked(chain) && chain[0].prev == None
    ensures |chain| > 1 <==> chain[|chain| - 1].prev.Some?
  {
    assert |chain| > 1 ==> LinkAt(chain, |chain| - 1);
  }

  lemma {:induction false} SameTopSameChain(a: seq<Line>, b: seq<Line>, ra: Root, rb: Root)
    requires Linked(a) && Linked(b) && a[0].prev == None && b[0].prev == None
    requires forall i :: 0 <= i < |a| ==> LineAt(a[i].day) in ra && Parse(a[i].day, ra[LineAt(a[i].day)]) == Ok(a[i])
    requires forall i :: 0 <= i < |b| ==> LineAt(b[i].day) in rb && Parse(b[i].day, rb[LineAt(b[i].day)]) == Ok(b[i])
    requires a[|a| - 1].day == b[|b| - 1].day && a[|a| - 1].sha == b[|b| - 1].sha
    ensures a == b
    decreases |a|
  {
    hide Parse;
    var x, y := a[|a| - 1], b[|b| - 1];
    ParsedFrom(x.day, ra[LineAt(x.day)]);
    ParsedFrom(y.day, rb[LineAt(y.day)]);
    assert x == y;
    TopHasPrev(a);
    TopHasPrev(b);
    if |a| > 1 {
      assert LinkAt(a, |a| - 1) && LinkAt(b, |b| - 1);
      var c, d := a[..|a| - 1], b[..|b| - 1];
      forall i | 0 < i < |c| ensures LinkAt(c, i) { assert LinkAt(a, i); }
      forall i | 0 < i < |d| ensures LinkAt(d, i) { assert LinkAt(b, i); }
      SameTopSameChain(c, d, ra, rb);
      assert a == c + [x] && b == d + [y];
    } else {
      assert a == [x] && b == [y];
    }
  }

  /** A pin determines the chain: two roots whose lines of one day have the same digest hold the same chain below it,
      line by line, down to the base. */
  lemma PinDeterminesChain(a: Root, b: Root, day: int)
    requires WalkChain(a, day).Ok? && WalkChain(b, day).Ok?
    requires ReadLine(a, day).Ok? && ReadLine(b, day).Ok? && ReadLine(a, day).value.sha == ReadLine(b, day).value.sha
    ensures WalkChain(a, day) == WalkChain(b, day)
  {
    hide Parse, WalkChain, Linked, Pairs, PairsNamed;
    WalkIsLinked(a, day);
    WalkIsLinked(b, day);
    var ca, cb := WalkChain(a, day).value, WalkChain(b, day).value;
    assert Linked(ca) && Linked(cb);
    assert ca != [] && cb != [] by { LinkedNotEmpty(ca); LinkedNotEmpty(cb); }
    assert Parse(day, a[LineAt(day)]) == Ok(ca[|ca| - 1]);
    assert Parse(day, b[LineAt(day)]) == Ok(cb[|cb| - 1]);
    SameTopSameChain(ca, cb, a, b);
  }

  lemma LinkedNotEmpty(chain: seq<Line>)
    requires Linked(chain)
    ensures chain != []
  {
  }

  // ---- reading bars

  predicate Meets(day: int, window: Option<(int, int)>) {
    window.None? || (window.value.0 < (day + 1) * DAY && day * DAY <= window.value.1)
  }

  /** The files a read opens and the holes it reads across, over the chain's first `n` lines. */
  function Listed(chain: seq<Line>, n: nat, pair: Pair, window: Option<(int, int)>, acceptHoles: bool)
    : Result<(seq<(Path, Digest)>, seq<int>), Error>
    requires 1 <= n <= |chain| && BaseFile(pair) in chain[0].files
    requires forall i :: 0 < i < |chain| && pair !in chain[i].holes ==> DayFile(pair, chain[i].day) in chain[i].files
  {
    if n == 1 then Ok(([(BaseFile(pair), chain[0].files[BaseFile(pair)])], []))
    else
      var (files, holes) :- Listed(chain, n - 1, pair, window, acceptHoles);
      var line := chain[n - 1];
      if pair in line.holes then
        if Meets(line.day, window) then
          if acceptHoles then Ok((files, holes + [line.day])) else Err(Hole)
        else Ok((files, holes))
      else Ok((files + [(DayFile(pair, line.day), line.files[DayFile(pair, line.day)])], holes))
  }

  /** The frames of the listed files, each hashed against its listing before it is read. */
  function Frames(root: Root, listed: seq<(Path, Digest)>): Result<seq<Bar>, Error> {
    if listed == [] then Ok([])
    else
      var before :- Frames(root, listed[..|listed| - 1]);
      var (path, digest) := listed[|listed| - 1];
      if FileAt(path) !in root then Err(FileAbsent)
      else if Sha256(root[FileAt(path)]) != digest then Err(FileDiffers)
      else if !root[FileAt(path)].Frame? then Err(NotAFrame)
      else Ok(before + root[FileAt(path)].bars)
  }

  function Windowed(bars: seq<Bar>, window: (int, int)): seq<Bar> {
    if bars == [] then []
    else
      var last := bars[|bars| - 1];
      Windowed(bars[..|bars| - 1], window) + if window.0 <= last.ts <= window.1 then [last] else []
  }

  lemma {:induction false} ChainLists(root: Root, asOf: int, pair: Pair)
    requires WalkChain(root, asOf).Ok? && pair in Pairs(root).value
    ensures var chain := WalkChain(root, asOf).value;
      && chain != [] && BaseFile(pair) in chain[0].files
      && (forall i :: 0 < i < |chain| && pair !in chain[i].holes ==> DayFile(pair, chain[i].day) in chain[i].files)
  {
    hide Least, Ascending;
    WalkIsLinked(root, asOf);
    var days := UpTo(root, asOf);
    var pairs := Pairs(root).value;
    var chain := WalkChain(root, asOf).value;
    NewestOfUpTo(root, asOf);
    DescendLinks(root, days, |days|, pairs, None);
    BaseNames(root, chain[0], pair);
    forall i | 0 < i < |chain| && pair !in chain[i].holes ensures DayFile(pair, chain[i].day) in chain[i].files {
      assert LinkAt(chain, i);
      DayNames(root, days[i], chain[i], pairs, pair);
    }
  }

  lemma BaseNames(root: Root, base: Line, pair: Pair)
    requires Days(root) != {} && Read(root, Least(Days(root))) == Ok(base) && base.prev == None
    requires pair in NamedPairs(base)
    ensures BaseFile(pair) in base.files
  {
    var k :| k in base.files && PairOf(k) == pair;
    assert k.BaseFile?;
  }

  lemma DayNames(root: Root, day: int, line: Line, pairs: set<Pair>, pair: Pair)
    requires Read(root, day) == Ok(line) && line.prev.Some?
    requires PairsNamed(line, pairs) && pair in pairs && pair !in line.holes
    ensures DayFile(pair, line.day) in line.files
  {
    assert pair in NamedPairs(line);
    var k :| k in line.files && PairOf(k) == pair;
    assert k.DayFile? && k.day == day;
  }

  datatype RollingRead = RollingRead(bars: seq<Bar>, holes: seq<int>, line: Line)

  /** `derive` is the roll-up of the tape's materialiser. */
  function ReadRolling(root: Root, pair: Pair, interval: int, asOf: int, window: Option<(int, int)>, acceptHoles: bool, derive: (seq<Bar>, int) -> seq<Bar>)
    : Result<RollingRead, Error>
  {
    var pairs :- Pairs(root);
    if pair !in pairs then Err(NotAPair)
    else if interval !in GRIDS then Err(NotAGrid)
    else
      var chain :- WalkChain(root, asOf);
      ChainLists(root, asOf, pair);
      var (listed, holes) :- Listed(chain, |chain|, pair, window, acceptHoles);
      var bars :- Frames(root, listed);
      var rolled := if interval == BASE_GRID then bars else derive(bars, interval);
      Ok(RollingRead(if window.Some? then Windowed(rolled, window.value) else rolled, holes, chain[|chain| - 1]))
  }

  lemma {:induction false} FramesAgree(a: Root, b: Root, listed: seq<(Path, Digest)>)
    requires Frames(a, listed).Ok? && Frames(b, listed).Ok?
    ensures Frames(a, listed) == Frames(b, listed)
  {
    if listed != [] {
      FramesAgree(a, b, listed[..|listed| - 1]);
    }
  }

  /** Reads that succeed list the same files and holes, whether or not each accepts holes. */
  lemma {:induction false} ListedAlike(chain: seq<Line>, n: nat, pair: Pair, window: Option<(int, int)>, accepts: bool, also: bool)
    requires 1 <= n <= |chain| && BaseFile(pair) in chain[0].files
    requires forall i :: 0 < i < |chain| && pair !in chain[i].holes ==> DayFile(pair, chain[i].day) in chain[i].files
    requires Listed(chain, n, pair, window, accepts).Ok? && Listed(chain, n, pair, window, also).Ok?
    ensures Listed(chain, n, pair, window, accepts) == Listed(chain, n, pair, window, also)
  {
    if n > 1 { ListedAlike(chain, n - 1, pair, window, accepts, also); }
  }

  /** A pin determines the data: two roots whose lines of one day have the same digest give, to every read of the
      same pair, grid and window that succeeds in both, the same bars, the same holes and the same line, though
      one read accepts holes and the other does not. */
  lemma PinDeterminesRead(a: Root, b: Root, pair: Pair, interval: int, day: int, window: Option<(int, int)>, accepts: bool, also: bool,
                          derive: (seq<Bar>, int) -> seq<Bar>)
    requires ReadLine(a, day).Ok? && ReadLine(b, day).Ok? && ReadLine(a, day).value.sha == ReadLine(b, day).value.sha
    requires ReadRolling(a, pair, interval, day, window, accepts, derive).Ok?
    requires ReadRolling(b, pair, interval, day, window, also, derive).Ok?
    ensures ReadRolling(a, pair, interval, day, window, accepts, derive) == ReadRolling(b, pair, interval, day, window, also, derive)
  {
    hide WalkChain, ReadLine, Frames, Windowed, Pairs, Listed;
    PinDeterminesChain(a, b, day);
    ChainLists(a, day, pair);
    ChainLists(b, day, pair);
    var chain := WalkChain(a, day).value;
    ListedAlike(chain, |chain|, pair, window, accepts, also);
    var (listed, holes) := Listed(chain, |chain|, pair, window, accepts).value;
    FramesAgree(a, b, listed);
  }

  // ---- the head, and verifying

  predicate AllPresent(root: Root, line: Line) {
    forall k :: k in line.files ==> FileAt(k) in root
  }

  /** The newest of the first `n` days whose files are all present. */
  function HeadAmong(root: Root, days: seq<int>, n: nat): Result<Line, Error>
    requires n <= |days| && forall i :: 0 <= i < |days| ==> days[i] in Days(root)
  {
    if n == 0 then Err(Incomplete)
    else
      var line :- ReadLine(root, days[n - 1]);
      if AllPresent(root, line) then
        var chain :- WalkChain(root, days[n - 1]);
        WalkIsLinked(root, days[n - 1]);
        Ok(chain[|chain| - 1])
      else HeadAmong(root, days, n - 1)
  }

  function Head(root: Root): Result<Line, Error> {
    assert forall i :: 0 <= i < |Ascending(Days(root))| ==> Ascending(Days(root))[i] in Ascending(Days(root));
    HeadAmong(root, Ascending(Days(root)), |Ascending(Days(root))|)
  }

  predicate Verifies(root: Root, line: Line) {
    forall k :: k in line.files ==> FileAt(k) in root && Sha256(root[FileAt(k)]) == line.files[k]
  }

  function Verify(root: Root, asOf: int): Result<Line, Error> {
    var chain :- WalkChain(root, asOf);
    WalkIsLinked(root, asOf);
    if forall i :: 0 <= i < |chain| ==> Verifies(root, chain[i]) then Ok(chain[|chain| - 1]) else Err(FileDiffers)
  }

  /** A verified root never refuses a read for what its files hold: what is left is the pair, the grid, a hole inside
      the window, or an attested file that is not a frame. */
  lemma VerifiedReads(root: Root, pair: Pair, interval: int, asOf: int, window: Option<(int, int)>, acceptHoles: bool, derive: (seq<Bar>, int) -> seq<Bar>)
    requires Verify(root, asOf).Ok? && Pairs(root).Ok?
    ensures match ReadRolling(root, pair, interval, asOf, window, acceptHoles, derive)
            case Ok(_) => true
            case Err(e) => e == NotAPair || e == NotAGrid || e == Hole || e == NotAFrame
  {
    hide WalkChain, Windowed, Listed, Frames, Verifies, Parse, Linked;
    if pair in Pairs(root).value && interval in GRIDS {
      ChainLists(root, asOf, pair);
      var chain := WalkChain(root, asOf).value;
      ListedVerifies(root, chain, |chain|, pair, window, acceptHoles);
      if Listed(chain, |chain|, pair, window, acceptHoles).Ok? {
        FramesVerify(root, Listed(chain, |chain|, pair, window, acceptHoles).value.0);
      }
    }
  }

  predicate Attested(root: Root, listed: seq<(Path, Digest)>) {
    forall i :: 0 <= i < |listed| ==> FileAt(listed[i].0) in root && Sha256(root[FileAt(listed[i].0)]) == listed[i].1
  }

  lemma {:induction false} ListedVerifies(root: Root, chain: seq<Line>, n: nat, pair: Pair, window: Option<(int, int)>, acceptHoles: bool)
    requires 1 <= n <= |chain| && BaseFile(pair) in chain[0].files
    requires forall i :: 0 < i < |chain| && pair !in chain[i].holes ==> DayFile(pair, chain[i].day) in chain[i].files
    requires forall i :: 0 <= i < |chain| ==> Verifies(root, chain[i])
    ensures match Listed(chain, n, pair, window, acceptHoles)
            case Ok((listed, _)) => Attested(root, listed)
            case Err(e) => e == Hole
  {
    if n > 1 {
      ListedVerifies(root, chain, n - 1, pair, window, acceptHoles);
      assert Verifies(root, chain[n - 1]);
    } else {
      assert Verifies(root, chain[0]);
    }
  }

  lemma {:induction false} FramesVerify(root: Root, listed: seq<(Path, Digest)>)
    requires Attested(root, listed)
    ensures Frames(root, listed).Err? ==> Frames(root, listed).error == NotAFrame
  {
    if listed != [] {
      FramesVerify(root, listed[..|listed| - 1]);
    }
  }
}
