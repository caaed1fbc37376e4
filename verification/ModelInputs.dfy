/** The builder's inputs, read live from the store and replayed from the journal: `_union_align` and
    `select_model_inputs` of `cli/engine/cycle.py`. */
module ModelInputs {
  import opened Prelude
  import opened Sorting

  datatype Base = BTC | ETH | SOL | XRP | ADA | LINK | DOGE | LTC | DOT | AVAX

  datatype Quote = EUR | XBT

  datatype Symbol = Symbol(base: Base, quote: Quote)

  const PAIR_KEYS: seq<Symbol> := [
    Symbol(BTC, EUR), Symbol(ETH, EUR), Symbol(SOL, EUR), Symbol(XRP, EUR), Symbol(ADA, EUR), Symbol(LINK, EUR),
    Symbol(DOGE, EUR), Symbol(LTC, EUR), Symbol(DOT, EUR), Symbol(AVAX, EUR), Symbol(ETH, XBT), Symbol(SOL, XBT)]

  const MODEL_SYMBOLS: seq<Symbol> := PAIR_KEYS[..10]

  /** A pair's stamps and closes on one grid; a close may be absent. */
  datatype Series = Series(ts: seq<int>, closes: seq<Option<real>>)

  type SeriesMap = map<Symbol, Series>

  datatype Error = MissingLegs(symbols: seq<Symbol>) | MissingSeries(symbol: Symbol)

  /** How many entries `zip(ts, closes)` has. */
  function Zipped(s: Series): nat {
    if |s.ts| <= |s.closes| then |s.ts| else |s.closes|
  }

  /** `dict(zip(ts, closes)).get(t)`, over the first `n` entries: the last of a repeated stamp wins. */
  function Lookup(s: Series, n: nat, t: int): Option<real>
    requires n <= Zipped(s)
  {
    if n == 0 then None
    else if s.ts[n - 1] == t then s.closes[n - 1]
    else Lookup(s, n - 1, t)
  }

  function Get(s: Series, t: int): Option<real> {
    Lookup(s, Zipped(s), t)
  }

  function Column(s: Series, calendar: seq<int>): (r: seq<Option<real>>)
    ensures |r| == |calendar|
  {
    seq(|calendar|, i requires 0 <= i < |calendar| => Get(s, calendar[i]))
  }

  /** The stamps at which a series has a close, at any of their entries. */
  function Closed(s: Series): set<int> {
    set i | 0 <= i < Zipped(s) && s.closes[i].Some? :: s.ts[i]
  }

  function MissingAmong(series: SeriesMap, symbols: seq<Symbol>): seq<Symbol> {
    if symbols == [] then []
    else
      var last := symbols[|symbols| - 1];
      MissingAmong(series, symbols[..|symbols| - 1]) + if last in series then [] else [last]
  }

  // ---- the contraction

  /** The stamps at which some EUR leg has a close. */
  function ModelStamps(series: SeriesMap): set<int> {
    set symbol, t | symbol in MODEL_SYMBOLS && symbol in series && t in Closed(series[symbol]) :: t
  }

  function Prices(series: SeriesMap, symbols: seq<Symbol>, calendar: seq<int>): map<Base, seq<Option<real>>>
    requires forall i :: 0 <= i < |symbols| ==> symbols[i] in series
  {
    if symbols == [] then map[]
    else
      var last := symbols[|symbols| - 1];
      Prices(series, symbols[..|symbols| - 1], calendar)[last.base := Column(series[last], calendar)]
  }

  lemma {:induction false} NoneMissing(series: SeriesMap, symbols: seq<Symbol>)
    ensures MissingAmong(series, symbols) == [] <==> forall i :: 0 <= i < |symbols| ==> symbols[i] in series
  {
    if symbols != [] {
      NoneMissing(series, symbols[..|symbols| - 1]);
    }
  }

  function Selected(series: SeriesMap): Result<(seq<int>, map<Base, seq<Option<real>>>), Error> {
    var missing := MissingAmong(series, MODEL_SYMBOLS);
    if missing != [] then Err(MissingLegs(missing))
    else
      NoneMissing(series, MODEL_SYMBOLS);
      var calendar := Ascending(ModelStamps(series));
      Ok((calendar, Prices(series, MODEL_SYMBOLS, calendar)))
  }

  method SelectModelInputs(series: SeriesMap) returns (r: Result<(seq<int>, map<Base, seq<Option<real>>>), Error>)
    ensures r == Selected(series)
  {
    hide ModelStamps, Column;
    var missing := MissingAmong(series, MODEL_SYMBOLS);
    if missing != [] { return Err(MissingLegs(missing)); }
    NoneMissing(series, MODEL_SYMBOLS);
    var calendar := Ascending(ModelStamps(series));
    var prices: map<Base, seq<Option<real>>> := map[];
    var i := 0;
    assert MODEL_SYMBOLS[..|MODEL_SYMBOLS|] == MODEL_SYMBOLS;
    while i < |MODEL_SYMBOLS|
      invariant 0 <= i <= |MODEL_SYMBOLS|
      invariant prices == Prices(series, MODEL_SYMBOLS[..i], calendar)
    {
      var symbol := MODEL_SYMBOLS[i];
      assert MODEL_SYMBOLS[..i + 1][..i] == MODEL_SYMBOLS[..i];
      prices := prices[symbol.base := Column(series[symbol], calendar)];
      i := i + 1;
    }
    return Ok((calendar, prices));
  }

  // ---- the journal's alignment

  function AllStamps(series: SeriesMap): set<int> {
    set symbol, t | symbol in series && t in series[symbol].ts :: t
  }

  /** All twelve on one calendar, as journaled and read back. */
  function UnionAligned(raw: SeriesMap): Result<SeriesMap, Error> {
    var missing := MissingAmong(raw, PAIR_KEYS);
    if missing != [] then Err(MissingSeries(missing[0]))
    else
      NoneMissing(raw, PAIR_KEYS);
      var calendar := Ascending(AllStamps(raw));
      Ok(map symbol | symbol in PAIR_KEYS :: Series(calendar, Column(raw[symbol], calendar)))
  }

  // ---- which closes survive

  lemma {:induction false} LookupClosed(s: Series, n: nat, t: int)
    requires n <= Zipped(s)
    ensures Lookup(s, n, t).Some? ==> exists i :: 0 <= i < n && s.ts[i] == t && s.closes[i] == Lookup(s, n, t)
    ensures (forall i :: 0 <= i < n ==> s.ts[i] != t) ==> Lookup(s, n, t).None?
    ensures (forall i, j :: 0 <= i < j < n ==> s.ts[i] != s.ts[j]) ==>
      (forall i :: 0 <= i < n && s.ts[i] == t ==> Lookup(s, n, t) == s.closes[i])
  {
    if n > 0 {
      LookupClosed(s, n - 1, t);
    }
  }

  lemma GetClosed(s: Series, t: int)
    ensures Get(s, t).Some? ==> t in Closed(s) && t in s.ts
  {
    LookupClosed(s, Zipped(s), t);
  }

  /** A series aligned on a calendar answers there as it did before, and nowhere else. */
  lemma GetAligned(s: Series, calendar: seq<int>, t: int)
    requires Increasing(calendar)
    ensures Get(Series(calendar, Column(s, calendar)), t) == if t in calendar then Get(s, t) else None
    ensures t in Closed(Series(calendar, Column(s, calendar))) <==> t in calendar && Get(s, t).Some?
  {
    hide Get;
    var a := Series(calendar, Column(s, calendar));
    assert Zipped(a) == |calendar|;
    GetIs(a, t);
    LookupClosed(a, |calendar|, t);
    if t in calendar {
      var i :| 0 <= i < |calendar| && calendar[i] == t;
      assert a.closes[i] == Get(s, t);
    }
  }

  lemma GetIs(s: Series, t: int)
    ensures Get(s, t) == Lookup(s, Zipped(s), t)
  {
  }

  /** At every stamp some leg closes, some leg's last entry there is a close. */
  ghost predicate LastCloses(raw: SeriesMap) {
    forall t :: t in ModelStamps(raw) ==> exists symbol :: symbol in MODEL_SYMBOLS && symbol in raw && Get(raw[symbol], t).Some?
  }

  ghost predicate DistinctStamps(s: Series) {
    forall i, j :: 0 <= i < j < Zipped(s) ==> s.ts[i] != s.ts[j]
  }

  lemma MemberOf(symbol: Symbol)
    requires symbol in MODEL_SYMBOLS
    ensures symbol in PAIR_KEYS
  {
    var i :| 0 <= i < |MODEL_SYMBOLS| && MODEL_SYMBOLS[i] == symbol;
    assert PAIR_KEYS[i] == symbol;
  }

  lemma AlignedIs(raw: SeriesMap)
    requires UnionAligned(raw).Ok?
    ensures var calendar := Ascending(AllStamps(raw));
      && (forall symbol :: symbol in PAIR_KEYS ==> symbol in raw && symbol in UnionAligned(raw).value)
      && (forall symbol :: symbol in PAIR_KEYS ==> UnionAligned(raw).value[symbol] == Series(calendar, Column(raw[symbol], calendar)))
  {
    hide Column, AllStamps;
    NoneMissing(raw, PAIR_KEYS);
    forall symbol | symbol in PAIR_KEYS ensures symbol in raw {
      var i :| 0 <= i < |PAIR_KEYS| && PAIR_KEYS[i] == symbol;
    }
  }

  /** The model's stamps after the alignment: those at which some leg's last entry is a close. */
  lemma AlignedStamps(raw: SeriesMap, t: int)
    requires UnionAligned(raw).Ok?
    ensures t in ModelStamps(UnionAligned(raw).value) <==>
      exists symbol :: symbol in MODEL_SYMBOLS && symbol in raw && Get(raw[symbol], t).Some?
  {
    AlignedIs(raw);
    var aligned := UnionAligned(raw).value;
    var calendar := Ascending(AllStamps(raw));
    assert t in AllStamps(raw) <==> t in calendar;
    hide Column, Ascending, Get, Closed, UnionAligned;
    if symbol :| symbol in MODEL_SYMBOLS && symbol in raw && Get(raw[symbol], t).Some? {
      MemberOf(symbol);
      GetAligned(raw[symbol], calendar, t);
      GetClosed(raw[symbol], t);
      assert t in Closed(aligned[symbol]);
    }
    if t in ModelStamps(aligned) {
      var symbol :| symbol in MODEL_SYMBOLS && symbol in aligned && t in Closed(aligned[symbol]);
      MemberOf(symbol);
      GetAligned(raw[symbol], calendar, t);
    }
  }

  lemma {:induction false} PricesAgree(a: SeriesMap, b: SeriesMap, symbols: seq<Symbol>, calendar: seq<int>)
    requires forall i :: 0 <= i < |symbols| ==> symbols[i] in a && symbols[i] in b
    requires forall i :: 0 <= i < |symbols| ==> Column(a[symbols[i]], calendar) == Column(b[symbols[i]], calendar)
    ensures Prices(a, symbols, calendar) == Prices(b, symbols, calendar)
  {
    hide Column;
    if symbols != [] {
      PricesAgree(a, b, symbols[..|symbols| - 1], calendar);
    }
  }

  lemma ColumnsAgree(raw: SeriesMap, symbol: Symbol, calendar: seq<int>)
    requires UnionAligned(raw).Ok? && symbol in MODEL_SYMBOLS
    requires forall i :: 0 <= i < |calendar| ==> calendar[i] in AllStamps(raw)
    ensures symbol in raw && symbol in UnionAligned(raw).value
    ensures Column(UnionAligned(raw).value[symbol], calendar) == Column(raw[symbol], calendar)
  {
    AlignedIs(raw);
    MemberOf(symbol);
    var all := Ascending(AllStamps(raw));
    var aligned := UnionAligned(raw).value[symbol];
    hide Ascending, Get, UnionAligned, AllStamps;
    forall i | 0 <= i < |calendar| ensures Get(aligned, calendar[i]) == Get(raw[symbol], calendar[i]) {
      GetAligned(raw[symbol], all, calendar[i]);
    }
  }

  lemma ModelStampsRaw(raw: SeriesMap, t: int)
    requires t in ModelStamps(raw)
    ensures t in AllStamps(raw)
  {
    var symbol :| symbol in MODEL_SYMBOLS && symbol in raw && t in Closed(raw[symbol]);
    var i :| 0 <= i < Zipped(raw[symbol]) && raw[symbol].closes[i].Some? && raw[symbol].ts[i] == t;
    assert t in raw[symbol].ts;
  }

  lemma LegsPresent(raw: SeriesMap)
    requires UnionAligned(raw).Ok?
    ensures Selected(raw).Ok? && Selected(UnionAligned(raw).value).Ok?
    ensures Selected(raw).value.0 == Ascending(ModelStamps(raw))
    ensures Selected(UnionAligned(raw).value).value.0 == Ascending(ModelStamps(UnionAligned(raw).value))
  {
    AlignedIs(raw);
    hide Ascending, ModelStamps, UnionAligned, Prices, Column;
    var aligned := UnionAligned(raw).value;
    forall i | 0 <= i < |MODEL_SYMBOLS| ensures MODEL_SYMBOLS[i] in raw && MODEL_SYMBOLS[i] in aligned {
      assert MODEL_SYMBOLS[i] == PAIR_KEYS[i] && PAIR_KEYS[i] in PAIR_KEYS;
    }
    NoneMissing(raw, MODEL_SYMBOLS);
    NoneMissing(aligned, MODEL_SYMBOLS);
  }

  lemma SelectedIs(series: SeriesMap)
    requires Selected(series).Ok?
    ensures forall i :: 0 <= i < |MODEL_SYMBOLS| ==> MODEL_SYMBOLS[i] in series
    ensures Selected(series).value == (Ascending(ModelStamps(series)), Prices(series, MODEL_SYMBOLS, Ascending(ModelStamps(series))))
  {
    hide Ascending, ModelStamps, Prices;
    NoneMissing(series, MODEL_SYMBOLS);
  }

  /** The cycle reading the store and the replay reading the journal reach the builder with the same calendar and the
      same closes exactly when, at every stamp some leg closes, some leg's last entry there is a close. */
  lemma LiveAndReplayedAgree(raw: SeriesMap)
    requires UnionAligned(raw).Ok?
    ensures Selected(UnionAligned(raw).value) == Selected(raw) <==> LastCloses(raw)
  {
    hide Ascending, ModelStamps, UnionAligned, Prices, Column, Get, Selected, AllStamps;
    var aligned := UnionAligned(raw).value;
    LegsPresent(raw);
    SelectedIs(raw);
    SelectedIs(aligned);
    forall t ensures t in ModelStamps(aligned) <==> exists symbol :: symbol in MODEL_SYMBOLS && symbol in raw && Get(raw[symbol], t).Some? {
      AlignedStamps(raw, t);
    }
    StampsShrink(raw);
    if LastCloses(raw) {
      forall t ensures t in ModelStamps(aligned) <==> t in ModelStamps(raw) {
        if symbol :| symbol in MODEL_SYMBOLS && symbol in raw && Get(raw[symbol], t).Some? {
          assert t in ModelStamps(raw);
        }
      }
      assert ModelStamps(aligned) == ModelStamps(raw);
      var calendar := Ascending(ModelStamps(raw));
      forall i | 0 <= i < |calendar| ensures calendar[i] in AllStamps(raw) {
        assert calendar[i] in calendar;
        ModelStampsRaw(raw, calendar[i]);
      }
      forall i | 0 <= i < |MODEL_SYMBOLS|
        ensures MODEL_SYMBOLS[i] in aligned
        ensures Column(aligned[MODEL_SYMBOLS[i]], calendar) == Column(raw[MODEL_SYMBOLS[i]], calendar)
      {
        assert MODEL_SYMBOLS[i] in MODEL_SYMBOLS;
        ColumnsAgree(raw, MODEL_SYMBOLS[i], calendar);
      }
      PricesAgree(aligned, raw, MODEL_SYMBOLS, calendar);
    } else {
      var t :| t in ModelStamps(raw) && !exists symbol :: symbol in MODEL_SYMBOLS && symbol in raw && Get(raw[symbol], t).Some?;
      assert t in Ascending(ModelStamps(raw)) && t !in Ascending(ModelStamps(aligned));
    }
  }

  lemma StampsShrink(raw: SeriesMap)
    ensures forall t, symbol :: symbol in MODEL_SYMBOLS && symbol in raw && Get(raw[symbol], t).Some? ==> t in ModelStamps(raw)
  {
    hide Get, Closed;
    forall t, symbol | symbol in MODEL_SYMBOLS && symbol in raw && Get(raw[symbol], t).Some? ensures t in ModelStamps(raw) {
      GetClosed(raw[symbol], t);
    }
  }

  /** Series with distinct stamps always agree. */
  lemma DistinctStampsAgree(raw: SeriesMap)
    requires UnionAligned(raw).Ok?
    requires forall symbol :: symbol in MODEL_SYMBOLS && symbol in raw ==> DistinctStamps(raw[symbol])
    ensures Selected(UnionAligned(raw).value) == Selected(raw)
  {
    forall t | t in ModelStamps(raw) ensures exists symbol :: symbol in MODEL_SYMBOLS && symbol in raw && Get(raw[symbol], t).Some? {
      var symbol :| symbol in MODEL_SYMBOLS && symbol in raw && t in Closed(raw[symbol]);
      LookupClosed(raw[symbol], Zipped(raw[symbol]), t);
    }
    hide Ascending, ModelStamps, UnionAligned, Selected, Get;
    LiveAndReplayedAgree(raw);
  }

  /** What the BTC-quoted pairs hold, stamps of their own included, never reaches the model. */
  lemma CrossesNeverEnter(a: SeriesMap, b: SeriesMap)
    requires forall symbol :: symbol in MODEL_SYMBOLS ==> (symbol in a <==> symbol in b) && (symbol in a ==> a[symbol] == b[symbol])
    ensures Selected(a) == Selected(b)
  {
    hide Ascending, Column, Closed;
    SameMissing(a, b, MODEL_SYMBOLS);
    assert ModelStamps(a) == ModelStamps(b);
    if Selected(a).Ok? && Selected(b).Ok? {
      SelectedIs(a);
      SelectedIs(b);
      hide Selected, ModelStamps, Prices;
      forall i | 0 <= i < |MODEL_SYMBOLS| ensures a[MODEL_SYMBOLS[i]] == b[MODEL_SYMBOLS[i]] {
        assert MODEL_SYMBOLS[i] in MODEL_SYMBOLS;
      }
      PricesAgree(a, b, MODEL_SYMBOLS, Ascending(ModelStamps(a)));
    }
  }

  lemma {:induction false} SameMissing(a: SeriesMap, b: SeriesMap, symbols: seq<Symbol>)
    requires forall i :: 0 <= i < |symbols| ==> (symbols[i] in a <==> symbols[i] in b)
    ensures MissingAmong(a, symbols) == MissingAmong(b, symbols)
  {
    if symbols != [] {
      SameMissing(a, b, symbols[..|symbols| - 1]);
    }
  }

  /** Twelve series of one stamp, each file holding it twice: first with a close, then without. */
  function Repeating(t: int, close: real): SeriesMap {
    map symbol | symbol in PAIR_KEYS :: Series([t, t], [Some(close), None])
  }

  /** The input on which the two differ, at any stamp and close: the live calendar has the stamp, the replayed one is
      empty. */
  lemma RepeatedStampDisagrees(t: int, close: real)
    ensures var raw := Repeating(t, close);
      && UnionAligned(raw).Ok? && Selected(raw).Ok? && Selected(raw).value.0 == [t]
      && Selected(UnionAligned(raw).value).Ok? && Selected(UnionAligned(raw).value).value.0 == []
  {
    var raw := Repeating(t, close);
    NoneMissing(raw, PAIR_KEYS);
    RepeatingPresent(t, close);
    hide Ascending, UnionAligned, Selected;
    assert UnionAligned(raw).Ok? by { RepeatingAligns(t, close); }
    LegsPresent(raw);
    RepeatingStamps(t, close);
    var aligned := UnionAligned(raw).value;
    forall s ensures s !in ModelStamps(aligned) {
      AlignedStamps(raw, s);
      RepeatingClosed(t, close, s);
    }
    assert ModelStamps(aligned) == {};
    AscendingUnique({t}, [t]);
    AscendingUnique({}, []);
  }

  lemma RepeatingPresent(t: int, close: real)
    ensures forall i :: 0 <= i < |PAIR_KEYS| ==> PAIR_KEYS[i] in Repeating(t, close)
  {
    forall i | 0 <= i < |PAIR_KEYS| ensures PAIR_KEYS[i] in Repeating(t, close) {
      assert PAIR_KEYS[i] in PAIR_KEYS;
    }
  }

  lemma RepeatingAligns(t: int, close: real)
    ensures UnionAligned(Repeating(t, close)).Ok?
  {
    RepeatingPresent(t, close);
    NoneMissing(Repeating(t, close), PAIR_KEYS);
  }

  lemma RepeatingClosed(t: int, close: real, s: int)
    ensures forall symbol :: symbol in MODEL_SYMBOLS && symbol in Repeating(t, close) ==> Get(Repeating(t, close)[symbol], s).None?
  {
    var leg := Series([t, t], [Some(close), None]);
    assert Lookup(leg, 2, s) == if s == t then None else Lookup(leg, 1, s);
    assert Lookup(leg, 1, s) == if s == t then Some(close) else Lookup(leg, 0, s);
    assert Get(leg, s).None?;
  }

  lemma RepeatingStamps(t: int, close: real)
    ensures ModelStamps(Repeating(t, close)) == {t}
  {
    var raw := Repeating(t, close);
    assert MODEL_SYMBOLS[0] == PAIR_KEYS[0] && MODEL_SYMBOLS[0] in MODEL_SYMBOLS && PAIR_KEYS[0] in PAIR_KEYS;
    var leg := raw[PAIR_KEYS[0]];
    assert leg.closes[0].Some? && leg.ts[0] == t;
    assert t in Closed(leg);
    assert t in ModelStamps(raw);
  }
}
