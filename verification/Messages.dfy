/** Book messages and the rows they are stored as: the fan-out of `cli/capture/command.py` and `regroup_messages` of
    `cli/archive/replay.py`. */
module Messages {

  datatype Level = Level(price: int, qty: int)

  /** What every row of one message shares. */
  datatype Key = Key(ts: int, symbol: int, snapshot: bool, checksum: int)

  datatype Message = Message(key: Key, bids: seq<Level>, asks: seq<Level>)

  datatype LevelRow = LevelRow(key: Key, bid: bool, level: Level)

  function SideRows(key: Key, bid: bool, levels: seq<Level>): seq<LevelRow> {
    if levels == [] then [] else SideRows(key, bid, levels[..|levels| - 1]) + [LevelRow(key, bid, levels[|levels| - 1])]
  }

  /** One row a level: the bids, then the asks. */
  function FanOut(m: Message): seq<LevelRow> {
    SideRows(m.key, true, m.bids) + SideRows(m.key, false, m.asks)
  }

  function FanOutAll(messages: seq<Message>): seq<LevelRow> {
    if messages == [] then [] else FanOutAll(messages[..|messages| - 1]) + FanOut(messages[|messages| - 1])
  }

  function Joined(m: Message, row: LevelRow): Message {
    if row.bid then m.(bids := m.bids + [row.level]) else m.(asks := m.asks + [row.level])
  }

  /** One row more: a message of its own, or a level of the last. */
  function Grown(messages: seq<Message>, opens: bool, row: LevelRow): (r: seq<Message>)
    requires !opens ==> messages != []
  {
    if opens then messages + [Joined(Message(row.key, [], []), row)]
    else messages[..|messages| - 1] + [Joined(messages[|messages| - 1], row)]
  }

  predicate Opens(rows: seq<LevelRow>, row: LevelRow) {
    rows == [] || rows[|rows| - 1].key != row.key
  }

  /** Consecutive rows of one key are one message. */
  function Regrouped(rows: seq<LevelRow>): (messages: seq<Message>)
    ensures rows != [] ==> messages != [] && messages[|messages| - 1].key == rows[|rows| - 1].key
  {
    if rows == [] then []
    else
      var front, row := rows[..|rows| - 1], rows[|rows| - 1];
      Grown(Regrouped(front), Opens(front, row), row)
  }

  lemma RegroupedSnoc(rows: seq<LevelRow>, row: LevelRow)
    ensures Opens(rows, row) || Regrouped(rows) != []
    ensures Regrouped(rows + [row]) == Grown(Regrouped(rows), Opens(rows, row), row)
  {
    assert (rows + [row])[..|rows|] == rows;
    hide Grown;
  }

  method Regroup(rows: seq<LevelRow>) returns (messages: seq<Message>)
    ensures messages == Regrouped(rows)
  {
    hide Regrouped;
    messages := [];
    RegroupedNone();
    assert rows[..|rows|] == rows && rows[..0] == [];
    var i := 0;
    while i < |rows|
      invariant 0 <= i <= |rows|
      invariant messages == Regrouped(rows[..i])
    {
      var row := rows[i];
      RegroupedSnoc(rows[..i], row);
      assert rows[..i + 1] == rows[..i] + [row];
      if i == 0 || rows[i - 1].key != row.key {
        messages := messages + [Message(row.key, [], [])];
      }
      var last := |messages| - 1;
      messages := messages[..last] + [Joined(messages[last], row)];
      i := i + 1;
    }
  }

  lemma RegroupedNone()
    ensures Regrouped([]) == []
  {
  }

  // ---- the round trip

  /** No message without a level, no two neighbours of the same key. */
  predicate Separable(messages: seq<Message>) {
    && (forall i :: 0 <= i < |messages| ==> messages[i].bids != [] || messages[i].asks != [])
    && (forall i :: 0 < i < |messages| ==> messages[i].key != messages[i - 1].key)
  }

  lemma {:induction false} RegroupedSeparable(rows: seq<LevelRow>)
    ensures Separable(Regrouped(rows))
  {
    if rows != [] {
      RegroupedSeparable(rows[..|rows| - 1]);
    }
  }

  /** The first `k` rows of a message, as a message. */
  function Begun(m: Message, k: nat): Message
    requires k <= |m.bids| + |m.asks|
  {
    if k <= |m.bids| then Message(m.key, m.bids[..k], []) else Message(m.key, m.bids, m.asks[..k - |m.bids|])
  }

  lemma {:induction false} SideRowsAre(key: Key, bid: bool, levels: seq<Level>)
    ensures |SideRows(key, bid, levels)| == |levels|
    ensures forall i :: 0 <= i < |levels| ==> SideRows(key, bid, levels)[i] == LevelRow(key, bid, levels[i])
  {
    if levels != [] {
      SideRowsAre(key, bid, levels[..|levels| - 1]);
    }
  }

  lemma FanOutRow(m: Message, k: nat)
    requires k < |m.bids| + |m.asks|
    ensures |FanOut(m)| == |m.bids| + |m.asks|
    ensures FanOut(m)[k].key == m.key
    ensures Joined(Begun(m, k), FanOut(m)[k]) == Begun(m, k + 1)
  {
    SideRowsAre(m.key, true, m.bids);
    SideRowsAre(m.key, false, m.asks);
    if k < |m.bids| {
      assert m.bids[..k + 1] == m.bids[..k] + [m.bids[k]];
    } else {
      var a := k - |m.bids|;
      assert m.asks[..a + 1] == m.asks[..a] + [m.asks[a]];
      assert m.bids[..|m.bids|] == m.bids;
    }
  }

  lemma FanOutCount(m: Message)
    ensures |FanOut(m)| == |m.bids| + |m.asks|
  {
    SideRowsAre(m.key, true, m.bids);
    SideRowsAre(m.key, false, m.asks);
  }

  /** A message's first rows behind rows of another key regroup into the message begun. */
  lemma {:induction false} RegroupsBegun(before: seq<LevelRow>, m: Message, k: nat)
    requires before == [] || before[|before| - 1].key != m.key
    requires 0 < k <= |FanOut(m)| == |m.bids| + |m.asks|
    ensures Regrouped(before + FanOut(m)[..k]) == Regrouped(before) + [Begun(m, k)]
    decreases k
  {
    hide FanOut, Regrouped;
    var front, row := before + FanOut(m)[..k - 1], FanOut(m)[k - 1];
    assert before + FanOut(m)[..k] == front + [row];
    FanOutRow(m, k - 1);
    RegroupedSnoc(front, row);
    if k == 1 {
      assert front == before;
      assert Begun(m, 0) == Message(m.key, [], []);
    } else {
      FanOutRow(m, k - 2);
      assert front[|front| - 1] == FanOut(m)[k - 2];
      RegroupsBegun(before, m, k - 1);
      assert Regrouped(front)[..|Regrouped(front)| - 1] == Regrouped(before);
    }
  }

  lemma FanOutAllEnds(messages: seq<Message>)
    requires messages != [] && (messages[|messages| - 1].bids != [] || messages[|messages| - 1].asks != [])
    ensures FanOutAll(messages) != []
    ensures FanOutAll(messages)[|FanOutAll(messages)| - 1].key == messages[|messages| - 1].key
  {
    var m := messages[|messages| - 1];
    FanOutCount(m);
    FanOutRow(m, |FanOut(m)| - 1);
    hide FanOut;
  }

  lemma {:induction false} RegroupsWhole(before: seq<LevelRow>, m: Message)
    requires before == [] || before[|before| - 1].key != m.key
    requires m.bids != [] || m.asks != []
    ensures Regrouped(before + FanOut(m)) == Regrouped(before) + [m]
  {
    FanOutCount(m);
    var n := |FanOut(m)|;
    RegroupsBegun(before, m, n);
    assert FanOut(m)[..n] == FanOut(m);
    assert Begun(m, n) == m;
  }

  lemma SeparableFront(messages: seq<Message>)
    requires Separable(messages) && messages != []
    ensures Separable(messages[..|messages| - 1])
    ensures |messages| > 1 ==> messages[|messages| - 1].key != messages[..|messages| - 1][|messages| - 2].key
    ensures forall i :: 0 <= i < |messages| ==> messages[i].bids != [] || messages[i].asks != []
  {
  }

  lemma {:induction false} SeparableRoundTrip(messages: seq<Message>)
    requires Separable(messages)
    ensures Regrouped(FanOutAll(messages)) == messages
  {
    hide FanOut, Regrouped, Separable;
    if messages == [] {
      RegroupedNone();
    } else {
      SeparableFront(messages);
      var front, m := messages[..|messages| - 1], messages[|messages| - 1];
      SeparableRoundTrip(front);
      var rows := FanOutAll(front);
      assert FanOutAll(messages) == rows + FanOut(m);
      hide FanOutAll;
      if front == [] { NoRows(); } else { FanOutAllEnds(front); }
      RegroupsWhole(rows, m);
      assert front + [m] == messages;
    }
  }

  lemma NoRows()
    ensures FanOutAll([]) == []
  {
  }

  /** Regrouping the stored rows gives back the messages exactly when none was empty and no two in a row shared stamp,
      symbol, type and checksum: an empty one leaves no row to find it by, and equal neighbours become one. */
  lemma RoundTripExactly(messages: seq<Message>)
    ensures Regrouped(FanOutAll(messages)) == messages <==> Separable(messages)
  {
    RegroupedSeparable(FanOutAll(messages));
    if Separable(messages) {
      SeparableRoundTrip(messages);
    }
  }

  // ---- what regrouping makes of any messages

  predicate Empty(m: Message) {
    m.bids == [] && m.asks == []
  }

  function Plus(a: Message, b: Message): Message {
    Message(a.key, a.bids + b.bids, a.asks + b.asks)
  }

  /** Empty messages dropped, and what is left of one key in a row joined. */
  function Merged(messages: seq<Message>): seq<Message> {
    if messages == [] then []
    else
      var front, m := Merged(messages[..|messages| - 1]), messages[|messages| - 1];
      var n := |front| - 1;
      if Empty(m) then front
      else if front != [] && front[n].key == m.key then front[..n] + [Plus(front[n], m)]
      else front + [m]
  }

  lemma JoinedPlus(a: Message, b: Message, row: LevelRow)
    ensures Joined(Plus(a, b), row) == Plus(a, Joined(b, row))
  {
    assert (a.bids + b.bids) + [row.level] == a.bids + (b.bids + [row.level]);
    assert (a.asks + b.asks) + [row.level] == a.asks + (b.asks + [row.level]);
  }

  /** A message's first rows behind rows of its own key go to the message those are of. */
  lemma {:induction false} RegroupsOnto(before: seq<LevelRow>, m: Message, k: nat)
    requires before != [] && before[|before| - 1].key == m.key
    requires k <= |FanOut(m)| == |m.bids| + |m.asks|
    ensures var r := Regrouped(before); r != [] && Regrouped(before + FanOut(m)[..k]) == r[..|r| - 1] + [Plus(r[|r| - 1], Begun(m, k))]
    decreases k
  {
    hide FanOut;
    var r := Regrouped(before);
    hide Regrouped;
    var last := r[|r| - 1];
    if k == 0 {
      assert before + FanOut(m)[..0] == before;
      assert Plus(last, Begun(m, 0)) == last;
    } else {
      var front, row := before + FanOut(m)[..k - 1], FanOut(m)[k - 1];
      assert before + FanOut(m)[..k] == front + [row];
      FanOutRow(m, k - 1);
      if k > 1 { FanOutRow(m, k - 2); }
      assert front[|front| - 1].key == m.key;
      RegroupsOnto(before, m, k - 1);
      RegroupedSnoc(front, row);
      JoinedPlus(last, Begun(m, k - 1), row);
    }
  }

  /** One message's rows more. */
  lemma RegroupsOneMore(rows: seq<LevelRow>, m: Message)
    ensures var r := Regrouped(rows); var n := |r| - 1;
      Regrouped(rows + FanOut(m)) ==
        if Empty(m) then r else if r != [] && r[n].key == m.key then r[..n] + [Plus(r[n], m)] else r + [m]
  {
    FanOutCount(m);
    RegroupedNone();
    hide FanOut;
    var r := Regrouped(rows);
    hide Regrouped;
    if Empty(m) {
      assert rows + FanOut(m) == rows;
    } else if rows != [] && rows[|rows| - 1].key == m.key {
      RegroupsOnto(rows, m, |FanOut(m)|);
      assert FanOut(m)[..|FanOut(m)|] == FanOut(m) && Begun(m, |FanOut(m)|) == m;
    } else {
      RegroupsWhole(rows, m);
    }
  }

  /** Whatever was fanned out, regrouping gives back its messages with the empty ones dropped and equal neighbours
      joined. */
  lemma {:induction false} RegroupsMerged(messages: seq<Message>)
    ensures Regrouped(FanOutAll(messages)) == Merged(messages)
  {
    hide FanOut, Regrouped, Plus, Empty;
    if messages == [] {
      RegroupedNone();
    } else {
      RegroupsMerged(messages[..|messages| - 1]);
      RegroupsOneMore(FanOutAll(messages[..|messages| - 1]), messages[|messages| - 1]);
    }
  }

  /** An empty message is lost wherever it stood. */
  lemma {:induction false} EmptyIsLost(before: seq<Message>, m: Message, behind: seq<Message>)
    requires Empty(m)
    ensures Regrouped(FanOutAll(before + [m] + behind)) == Regrouped(FanOutAll(before + behind))
  {
    NoneFannedOut(before, m, behind);
  }

  lemma {:induction false} NoneFannedOut(before: seq<Message>, m: Message, behind: seq<Message>)
    requires Empty(m)
    ensures FanOutAll(before + [m] + behind) == FanOutAll(before + behind)
  {
    FanOutCount(m);
    hide FanOut;
    var with, without := before + [m] + behind, before + behind;
    if behind == [] {
      assert with[..|with| - 1] == before && without == before;
    } else {
      var front := behind[..|behind| - 1];
      NoneFannedOut(before, m, front);
      assert with[..|with| - 1] == before + [m] + front && without[..|without| - 1] == before + front;
    }
  }

  /** Two neighbours of one key come back as one message. */
  lemma NeighboursJoin(a: Message, b: Message)
    requires a.key == b.key && !Empty(a) && !Empty(b)
    ensures Regrouped(FanOutAll([a, b])) == [Plus(a, b)]
  {
    RegroupsMerged([a, b]);
    assert [a, b][..1] == [a] && [a][..0] == [];
    hide Empty, Plus;
    assert Merged([a]) == [a];
  }
}
