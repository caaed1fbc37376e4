/** The cross-stream corroboration of `cli/capture/segment_writer.py`: an hour has begun once two
    witnesses have reached it. */
module HourOracles {
  import opened Prelude
  import opened Clock
  import opened Sorting

  /** A (pair, kind) stream, by number. */
  type Stream = int

  datatype OracleState = OracleState(witnessed: map<Stream, int>, confirmed: Option<int>)

  const FRESH: OracleState := OracleState(map[], None)

  // ---- the two operations, on values

  function Observed(o: OracleState, stream: Stream, ts: int, now: int): OracleState {
    var clamped := Min(ts, now + MAX_TS_AHEAD);
    if stream !in o.witnessed || clamped > o.witnessed[stream]
    then o.(witnessed := o.witnessed[stream := clamped])
    else o
  }

  /** Every stream's witness, then the handicapped clock. */
  function Witnesses(o: OracleState, now: int): (ws: seq<int>)
    ensures |ws| == |Ascending(o.witnessed.Keys)| + 1
  {
    var streams := Ascending(o.witnessed.Keys);
    seq(|streams|, i requires 0 <= i < |streams| => assert streams[i] in streams; o.witnessed[streams[i]])
      + [now - CLOCK_WITNESS_MARGIN]
  }

  function Newest(ws: seq<int>): (r: seq<int>)
    ensures |r| == |ws|
  {
    SortBy((w: int) => -w, ws)
  }

  function Asked(o: OracleState, now: int): OracleState {
    var ws := Newest(Witnesses(o, now));
    if |ws| < HOUR_QUORUM then o
    else
      var candidate := HourStart(ws[HOUR_QUORUM - 1]);
      if o.confirmed.None? || candidate > o.confirmed.value
      then o.(confirmed := Some(candidate))
      else o
  }

  class HourOracle {
    var witnessed: map<Stream, int>
    var confirmed: Option<int>

    ghost function State(): OracleState
      reads this
    {
      OracleState(witnessed, confirmed)
    }

    constructor ()
      ensures State() == FRESH
    {
      witnessed := map[];
      confirmed := None;
    }

    method Observe(stream: Stream, ts: int, now: int)
      modifies this
      ensures State() == Observed(old(State()), stream, ts, now)
    {
      var clamped := Min(ts, now + MAX_TS_AHEAD);
      if stream !in witnessed || clamped > witnessed[stream] {
        witnessed := witnessed[stream := clamped];
      }
    }

    method ConfirmedHour(now: int) returns (hour: Option<int>)
      modifies this
      ensures State() == Asked(old(State()), now)
      ensures hour == State().confirmed
    {
      var ws := Newest(Witnesses(OracleState(witnessed, confirmed), now));
      if |ws| >= HOUR_QUORUM {
        var candidate := HourStart(ws[HOUR_QUORUM - 1]);
        if confirmed.None? || candidate > confirmed.value {
          confirmed := Some(candidate);
        }
      }
      return confirmed;
    }
  }

  // ---- the second newest witness

  function CountFrom(ws: seq<int>, t: int): nat {
    if ws == [] then 0 else CountFrom(ws[..|ws| - 1], t) + if ws[|ws| - 1] >= t then 1 else 0
  }

  lemma {:induction false} InsertCounts(s: seq<int>, x: int, t: int)
    ensures CountFrom(InsertBy((w: int) => -w, s, x), t) == CountFrom(s + [x], t)
  {
    var key := (w: int) => -w;
    assert (s + [x])[..|s|] == s;
    if s == [] || key(s[|s| - 1]) <= key(x) {
    } else {
      var front, last := s[..|s| - 1], s[|s| - 1];
      InsertCounts(front, x, t);
      assert (front + [x])[..|front|] == front;
      var r := InsertBy(key, front, x);
      assert (r + [last])[..|r|] == r;
    }
  }

  lemma {:induction false} SortCounts(ws: seq<int>, t: int)
    ensures CountFrom(Newest(ws), t) == CountFrom(ws, t)
  {
    if ws != [] {
      var front, last := ws[..|ws| - 1], ws[|ws| - 1];
      SortCounts(front, t);
      InsertCounts(Newest(front), last, t);
      var r := Newest(front);
      assert (r + [last])[..|r|] == r;
    }
  }

  /** Two positions have reached `t` exactly when the count says so. */
  lemma {:induction false} CountTwo(ws: seq<int>, t: int)
    ensures CountFrom(ws, t) >= 1 <==> exists i :: 0 <= i < |ws| && ws[i] >= t
    ensures CountFrom(ws, t) >= 2 <==> exists i, j :: 0 <= i < j < |ws| && ws[i] >= t && ws[j] >= t
  {
    if ws != [] {
      var n := |ws| - 1;
      CountTwo(ws[..n], t);
      if CountFrom(ws, t) >= 2 && ws[n] >= t {
        var i :| 0 <= i < n && ws[..n][i] >= t;
        assert ws[i] >= t && ws[n] >= t;
      }
      if exists i, j :: 0 <= i < j < |ws| && ws[i] >= t && ws[j] >= t {
        var i, j :| 0 <= i < j < |ws| && ws[i] >= t && ws[j] >= t;
        assert ws[..n][i] >= t;
        if j < n { assert ws[..n][j] >= t; }
      }
      if exists i :: 0 <= i < |ws| && ws[i] >= t {
        var i :| 0 <= i < |ws| && ws[i] >= t;
        if i < n { assert ws[..n][i] >= t; }
      }
      if exists i :: 0 <= i < n && ws[..n][i] >= t {
        var i :| 0 <= i < n && ws[..n][i] >= t;
        assert ws[i] >= t;
      }
    }
  }

  lemma {:induction false} CountOfDescending(ws: seq<int>, t: int)
    requires SortedBy((w: int) => -w, ws)
    requires |ws| >= 2
    ensures ws[1] >= t <==> CountFrom(ws, t) >= 2
  {
    CountTwo(ws, t);
    var key := (w: int) => -w;
    assert key(ws[0]) <= key(ws[1]);
    if CountFrom(ws, t) >= 2 {
      var i, j :| 0 <= i < j < |ws| && ws[i] >= t && ws[j] >= t;
      assert j == 1 || key(ws[1]) <= key(ws[j]);
    }
  }

  ghost predicate TwoReached(ws: seq<int>, t: int) {
    exists i, j :: 0 <= i < j < |ws| && ws[i] >= t && ws[j] >= t
  }

  /** The witness the quorum rests on has reached `t` exactly when two witnesses have. */
  lemma SecondNewestReached(ws: seq<int>, t: int)
    requires |ws| >= 2
    ensures Newest(ws)[1] >= t <==> TwoReached(ws, t)
  {
    SortByKeeps((w: int) => -w, ws);
    SortCounts(ws, t);
    CountOfDescending(Newest(ws), t);
    CountTwo(ws, t);
  }

  // ---- what one question confirms

  ghost predicate Reached(o: OracleState, stream: Stream, hour: int) {
    stream in o.witnessed && o.witnessed[stream] >= hour
  }

  /** Two distinct streams, or one stream and the clock a margin into the hour. */
  ghost predicate Quorum(o: OracleState, now: int, hour: int) {
    (exists s, s' :: s != s' && Reached(o, s, hour) && Reached(o, s', hour))
    || ((exists s :: Reached(o, s, hour)) && now >= hour + CLOCK_WITNESS_MARGIN)
  }

  ghost predicate Confirmed(o: OracleState, hour: int) {
    o.confirmed.Some? && o.confirmed.value >= hour
  }

  lemma WitnessAt(o: OracleState, now: int, i: nat)
    requires i < |Witnesses(o, now)|
    ensures var streams, ws := Ascending(o.witnessed.Keys), Witnesses(o, now);
      if i < |streams| then streams[i] in o.witnessed && ws[i] == o.witnessed[streams[i]]
      else ws[i] == now - CLOCK_WITNESS_MARGIN
  {
    var streams := Ascending(o.witnessed.Keys);
    if i < |streams| { assert streams[i] in streams; }
  }

  lemma WitnessOf(o: OracleState, now: int, stream: Stream) returns (i: nat)
    requires stream in o.witnessed
    ensures i < |Ascending(o.witnessed.Keys)| && Ascending(o.witnessed.Keys)[i] == stream
    ensures Witnesses(o, now)[i] == o.witnessed[stream]
  {
    assert stream in Ascending(o.witnessed.Keys);
    i :| 0 <= i < |Ascending(o.witnessed.Keys)| && Ascending(o.witnessed.Keys)[i] == stream;
    WitnessAt(o, now, i);
  }

  lemma TwoReachedMeansQuorum(o: OracleState, now: int, hour: int)
    requires TwoReached(Witnesses(o, now), hour)
    ensures Quorum(o, now, hour)
  {
    hide Witnesses, Ascending;
    var ws, streams := Witnesses(o, now), Ascending(o.witnessed.Keys);
    var i, j :| 0 <= i < j < |ws| && ws[i] >= hour && ws[j] >= hour;
    WitnessAt(o, now, i);
    WitnessAt(o, now, j);
    assert Reached(o, streams[i], hour);
    if j < |streams| { assert Reached(o, streams[j], hour); }
  }

  lemma QuorumMeansTwoReached(o: OracleState, now: int, hour: int)
    requires Quorum(o, now, hour)
    ensures TwoReached(Witnesses(o, now), hour)
  {
    hide Witnesses, Ascending;
    var ws, streams := Witnesses(o, now), Ascending(o.witnessed.Keys);
    if s, s' :| s != s' && Reached(o, s, hour) && Reached(o, s', hour) {
      var i := WitnessOf(o, now, s);
      var j := WitnessOf(o, now, s');
      assert ws[i] >= hour && ws[j] >= hour;
      if i < j {
        assert TwoReached(ws, hour);
      } else {
        assert j < i;
      }
    } else {
      var s :| Reached(o, s, hour);
      var i := WitnessOf(o, now, s);
      WitnessAt(o, now, |streams|);
      assert ws[i] >= hour && ws[|streams|] >= hour;
    }
  }

  lemma AskedTakesLater(o: OracleState, now: int)
    requires |Witnesses(o, now)| >= 2
    ensures Asked(o, now).witnessed == o.witnessed
    ensures var candidate := HourStart(Newest(Witnesses(o, now))[1]);
      Asked(o, now).confirmed ==
        Some(if o.confirmed.Some? then Max(candidate, o.confirmed.value) else candidate)
  {
  }

  /** One question: the hour is confirmed after it exactly when it already was or a quorum has reached it. */
  lemma AskedConfirms(o: OracleState, now: int, hour: int)
    requires hour % HOUR == 0
    ensures Confirmed(Asked(o, now), hour) <==> Confirmed(o, hour) || Quorum(o, now, hour)
  {
    hide Witnesses, Newest, Quorum, HourStart;
    var ws := Witnesses(o, now);
    assert TwoReached(ws, hour) <==> Quorum(o, now, hour) by {
      if TwoReached(ws, hour) { TwoReachedMeansQuorum(o, now, hour); }
      if Quorum(o, now, hour) { QuorumMeansTwoReached(o, now, hour); }
    }
    if |ws| >= 2 {
      var second := Newest(ws)[1];
      assert second >= hour <==> Quorum(o, now, hour) by { SecondNewestReached(ws, hour); }
      assert HourStart(second) >= hour <==> second >= hour by { HourStartReached(second, hour); }
      AskedTakesLater(o, now);
    }
  }

  // ---- whole runs

  datatype Event = Saw(stream: Stream, ts: int, now: int) | Question(now: int)

  function Step(o: OracleState, e: Event): OracleState {
    match e
    case Saw(stream, ts, now) => Observed(o, stream, ts, now)
    case Question(now) => Asked(o, now)
  }

  function Run(events: seq<Event>): OracleState {
    if events == [] then FRESH else Step(Run(events[..|events| - 1]), events[|events| - 1])
  }

  /** Some event of `stream` was stamped at or past `hour` while the clock was within the window of it. */
  ghost predicate Vouched(events: seq<Event>, stream: Stream, hour: int) {
    exists k :: 0 <= k < |events| && Vouches(events[k], stream, hour)
  }

  predicate Vouches(e: Event, stream: Stream, hour: int) {
    e.Saw? && e.stream == stream && e.ts >= hour && e.now + MAX_TS_AHEAD >= hour
  }

  lemma {:induction false} ReachedByVouching(events: seq<Event>, stream: Stream, hour: int)
    ensures Reached(Run(events), stream, hour) <==> Vouched(events, stream, hour)
  {
    if events != [] {
      var n := |events| - 1;
      ReachedByVouching(events[..n], stream, hour);
      assert Vouched(events, stream, hour) <==>
        Vouched(events[..n], stream, hour) || Vouches(events[n], stream, hour) by {
        if k :| 0 <= k < |events| && Vouches(events[k], stream, hour) {
          assert k < n ==> Vouches(events[..n][k], stream, hour);
        }
        if k :| 0 <= k < n && Vouches(events[..n][k], stream, hour) {
          assert Vouches(events[k], stream, hour);
        }
      }
    }
  }

  ghost predicate QuorumAt(events: seq<Event>, k: nat, hour: int)
    requires k < |events|
  {
    events[k].Question? &&
    var before := events[..k];
    (exists s, s' :: s != s' && Vouched(before, s, hour) && Vouched(before, s', hour))
    || ((exists s :: Vouched(before, s, hour)) && events[k].now >= hour + CLOCK_WITNESS_MARGIN)
  }

  lemma QuorumByVouching(events: seq<Event>, now: int, hour: int)
    ensures Quorum(Run(events), now, hour) <==>
      (exists s, s' :: s != s' && Vouched(events, s, hour) && Vouched(events, s', hour))
      || ((exists s :: Vouched(events, s, hour)) && now >= hour + CLOCK_WITNESS_MARGIN)
  {
    forall s ensures Reached(Run(events), s, hour) <==> Vouched(events, s, hour) {
      ReachedByVouching(events, s, hour);
    }
  }

  /** Over every run from a fresh process: an hour is confirmed exactly when, at some question, two distinct
      streams had each vouched for it inside the clock's window, or one had and the clock itself was a
      margin past it. */
  lemma {:induction false} ConfirmedExactlyByQuorum(events: seq<Event>, hour: int)
    requires hour % HOUR == 0
    ensures Confirmed(Run(events), hour) <==> exists k :: 0 <= k < |events| && QuorumAt(events, k, hour)
  {
    if events != [] {
      var n := |events| - 1;
      var before := events[..n];
      ConfirmedExactlyByQuorum(before, hour);
      forall k | 0 <= k < n ensures QuorumAt(before, k, hour) <==> QuorumAt(events, k, hour) {
        assert before[..k] == events[..k];
      }
      QuorumByVouching(before, events[n].now, hour);
      if events[n].Question? {
        AskedConfirms(Run(before), events[n].now, hour);
        assert Confirmed(Run(events), hour) <==> Confirmed(Run(before), hour) || QuorumAt(events, n, hour);
      } else {
        assert !QuorumAt(events, n, hour);
      }
    }
  }

  /** A confirmed hour stays confirmed, whatever the clock and the streams do next. */
  lemma {:induction false} ConfirmedStays(events: seq<Event>, more: seq<Event>)
    ensures Run(events).confirmed.Some? ==> Confirmed(Run(events + more), Run(events).confirmed.value)
  {
    if more == [] {
      assert events + more == events;
    } else {
      var n := |more| - 1;
      ConfirmedStays(events, more[..n]);
      assert (events + more)[..|events + more| - 1] == events + more[..n];
    }
  }

  lemma {:induction false} ConfirmedAligned(events: seq<Event>)
    ensures Run(events).confirmed.Some? ==> Run(events).confirmed.value % HOUR == 0
  {
    if events != [] {
      ConfirmedAligned(events[..|events| - 1]);
    }
  }

  /** No quorum, however poisoned, confirms an hour more than the window before the clock reached it. */
  lemma NeverConfirmedEarly(events: seq<Event>)
    requires Run(events).confirmed.Some?
    ensures exists k :: 0 <= k < |events| && Run(events).confirmed.value <= events[k].now + MAX_TS_AHEAD
  {
    var hour := Run(events).confirmed.value;
    ConfirmedAligned(events);
    ConfirmedExactlyByQuorum(events, hour);
    var k :| 0 <= k < |events| && QuorumAt(events, k, hour);
    var s :| Vouched(events[..k], s, hour);
    var j :| 0 <= j < k && Vouches(events[..k][j], s, hour);
    assert events[j].now + MAX_TS_AHEAD >= hour;
  }
}
