/** The bounded retry ladder of `cli/capture/desync_recovery.py`, and the loop of `cli/capture/command.py` that drives it. */
module DesyncRecoveries {
  import opened Prelude

  datatype Action = NoAction | Retry | Reconnect

  /** A retry counted against an empty schedule has nothing to wait for: the lookup raises. */
  datatype Error = NoSchedule

  datatype PairState = PairState(desyncedAt: Option<int>, lastAttemptAt: Option<int>, attempts: nat, escalatedAt: Option<int>)

  datatype Ladder = Ladder(grace: int, backoff: seq<int>, cooldown: int)

  // ---- one pair's record

  predicate Cooling(l: Ladder, s: PairState, at: int) {
    s.escalatedAt.Some? && at - s.escalatedAt.value < l.cooldown
  }

  function Desynced(l: Ladder, s: Option<PairState>, at: int): Option<PairState> {
    if s.Some? && s.value.desyncedAt.Some? then s
    else Some(PairState(Some(at), None, 0, if s.Some? && Cooling(l, s.value, at) then s.value.escalatedAt else None))
  }

  function Recovered(l: Ladder, s: Option<PairState>, at: int): Option<PairState> {
    if s.Some? && Cooling(l, s.value, at) then Some(PairState(None, None, 0, s.value.escalatedAt)) else None
  }

  function Attempted(s: Option<PairState>, at: int): Option<PairState> {
    if s.None? then None else Some(s.value.(lastAttemptAt := Some(at), attempts := s.value.attempts + 1))
  }

  function Escalated(s: Option<PairState>, at: int): Option<PairState> {
    var state := if s.Some? then s.value else PairState(Some(at), None, 0, None);
    Some(state.(escalatedAt := Some(at)))
  }

  /** An escalation that has cooled down re-arms the ladder; the start of the desync is kept. */
  function Rearmed(l: Ladder, s: Option<PairState>, at: int): Option<PairState> {
    if s.Some? && s.value.desyncedAt.Some? && s.value.escalatedAt.Some? && !Cooling(l, s.value, at)
    then Some(s.value.(escalatedAt := None, attempts := 0, lastAttemptAt := None))
    else s
  }

  function Wait(l: Ladder, attempts: nat): int
    requires attempts == 0 || l.backoff != []
  {
    if attempts == 0 then l.grace
    else l.backoff[if attempts - 1 < |l.backoff| - 1 then attempts - 1 else |l.backoff| - 1]
  }

  function DueNow(l: Ladder, s: Option<PairState>, at: int): Result<Action, Error> {
    var armed := Rearmed(l, s, at);
    if armed.None? || armed.value.desyncedAt.None? || Cooling(l, armed.value, at) then Ok(NoAction)
    else if armed.value.attempts > 0 && l.backoff == [] then Err(NoSchedule)
    else
      var from := if armed.value.lastAttemptAt.Some? then armed.value.lastAttemptAt.value else armed.value.desyncedAt.value;
      if at - from < Wait(l, armed.value.attempts) then Ok(NoAction)
      else if armed.value.attempts >= |l.backoff| then Ok(Reconnect)
      else Ok(Retry)
  }

  class DesyncRecovery {
    const ladder: Ladder
    var pairs: map<string, PairState>

    constructor (ladder: Ladder)
      ensures this.ladder == ladder && pairs == map[]
    {
      this.ladder := ladder;
      pairs := map[];
    }

    function Of(pair: string): Option<PairState>
      reads this
    {
      if pair in pairs then Some(pairs[pair]) else None
    }

    twostate predicate Only(pair: string)
      reads this
    {
      pairs - {pair} == old(pairs) - {pair}
    }

    method NoteDesync(pair: string, at: int)
      modifies this
      ensures Of(pair) == Desynced(ladder, old(Of(pair)), at) && Only(pair)
    {
      if pair in pairs && pairs[pair].desyncedAt.Some? { return; }
      var escalatedAt := None;
      if pair in pairs && pairs[pair].escalatedAt.Some? {
        if at - pairs[pair].escalatedAt.value < ladder.cooldown {
          escalatedAt := pairs[pair].escalatedAt;
        }
      }
      pairs := pairs[pair := PairState(Some(at), None, 0, escalatedAt)];
    }

    method NoteRecovered(pair: string, at: int)
      modifies this
      ensures Of(pair) == Recovered(ladder, old(Of(pair)), at) && Only(pair)
    {
      if pair !in pairs { return; }
      var state := pairs[pair];
      if state.escalatedAt.Some? && at - state.escalatedAt.value < ladder.cooldown {
        pairs := pairs[pair := PairState(None, None, 0, state.escalatedAt)];
        return;
      }
      pairs := pairs - {pair};
    }

    method NoteAttempt(pair: string, at: int)
      modifies this
      ensures Of(pair) == Attempted(old(Of(pair)), at) && Only(pair)
    {
      if pair !in pairs { return; }
      pairs := pairs[pair := pairs[pair].(lastAttemptAt := Some(at), attempts := pairs[pair].attempts + 1)];
    }

    method NoteEscalated(pair: string, at: int)
      modifies this
      ensures Of(pair) == Escalated(old(Of(pair)), at) && Only(pair)
    {
      if pair !in pairs {
        pairs := pairs[pair := PairState(Some(at), None, 0, None)];
      }
      pairs := pairs[pair := pairs[pair].(escalatedAt := Some(at))];
    }

    method Due(pair: string, at: int) returns (r: Result<Action, Error>)
      modifies this
      ensures Of(pair) == Rearmed(ladder, old(Of(pair)), at) && Only(pair)
      ensures r == DueNow(ladder, old(Of(pair)), at)
    {
      if pair !in pairs || pairs[pair].desyncedAt.None? { return Ok(NoAction); }
      if pairs[pair].escalatedAt.Some? {
        if at - pairs[pair].escalatedAt.value < ladder.cooldown { return Ok(NoAction); }
        pairs := pairs[pair := pairs[pair].(escalatedAt := None, attempts := 0, lastAttemptAt := None)];
      }
      var state := pairs[pair];
      var from := if state.lastAttemptAt.Some? then state.lastAttemptAt.value else state.desyncedAt.value;
      if state.attempts > 0 && ladder.backoff == [] { return Err(NoSchedule); }
      if at - from < Wait(ladder, state.attempts) { return Ok(NoAction); }
      if state.attempts >= |ladder.backoff| { return Ok(Reconnect); }
      return Ok(Retry);
    }

    /** The loop's body for one pair. The ladder advances before the caller acts. */
    method Drive(pair: string, desynced: bool, connected: bool, now: int) returns (acted: Action)
      modifies this
      ensures Of(pair) == Stepped(ladder, old(Of(pair)), Tick(now, desynced, connected)) && Only(pair)
      ensures acted == Acted(ladder, old(Of(pair)), Tick(now, desynced, connected))
    {
      if !desynced {
        NoteRecovered(pair, now);
        return NoAction;
      }
      var r := Due(pair, now);
      if r.Err? || r.value == NoAction { return NoAction; }
      if !connected { return NoAction; }
      acted := r.value;
      if acted == Retry {
        NoteAttempt(pair, now);
      } else {
        NoteEscalated(pair, now);
      }
    }

    /** One sweep over every pair, at one reading of the clock. */
    method Sweep(books: seq<Reading>, now: int) returns (acted: seq<Action>)
      requires forall i, j :: 0 <= i < j < |books| ==> books[i].pair != books[j].pair
      modifies this
      ensures |acted| == |books|
      ensures forall i :: 0 <= i < |books| ==>
        && Of(books[i].pair) == Stepped(ladder, old(Of(books[i].pair)), books[i].TickAt(now))
        && acted[i] == Acted(ladder, old(Of(books[i].pair)), books[i].TickAt(now))
      ensures forall pair :: (forall i :: 0 <= i < |books| ==> books[i].pair != pair) ==> Of(pair) == old(Of(pair))
    {
      hide Stepped, Acted;
      acted := [];
      var n := 0;
      while n < |books|
        invariant 0 <= n <= |books| && |acted| == n
        invariant forall i :: 0 <= i < n ==>
          && Of(books[i].pair) == Stepped(ladder, old(Of(books[i].pair)), books[i].TickAt(now))
          && acted[i] == Acted(ladder, old(Of(books[i].pair)), books[i].TickAt(now))
        invariant forall pair :: (forall i :: 0 <= i < n ==> books[i].pair != pair) ==> Of(pair) == old(Of(pair))
      {
        label Before:
        assert Of(books[n].pair) == old(Of(books[n].pair));
        var a := Drive(books[n].pair, books[n].desynced, books[n].connected, now);
        forall pair | pair != books[n].pair ensures Of(pair) == old@Before(Of(pair)) {
          assert pair in pairs <==> pair in pairs - {books[n].pair};
        }
        acted := acted + [a];
        n := n + 1;
      }
    }
  }

  datatype Reading = Reading(pair: string, desynced: bool, connected: bool) {
    function TickAt(now: int): Event {
      Tick(now, desynced, connected)
    }
  }

  // ---- one pair's life

  /** What reaches one pair's record: the message handler's two calls, and the loop's visits. */
  datatype Event = Desync(at: int) | Recovery(at: int) | Tick(at: int, desynced: bool, connected: bool)

  function Acted(l: Ladder, s: Option<PairState>, e: Event): Action {
    if e.Tick? && e.desynced && e.connected && DueNow(l, s, e.at).Ok? then DueNow(l, s, e.at).value else NoAction
  }

  function Stepped(l: Ladder, s: Option<PairState>, e: Event): Option<PairState> {
    match e
    case Desync(at) => Desynced(l, s, at)
    case Recovery(at) => Recovered(l, s, at)
    case Tick(at, desynced, connected) =>
      if !desynced then Recovered(l, s, at)
      else
        var armed := Rearmed(l, s, at);
        match Acted(l, s, e)
        case NoAction => armed
        case Retry => Attempted(armed, at)
        case Reconnect => Escalated(armed, at)
  }

  function After(l: Ladder, s: Option<PairState>, events: seq<Event>): Option<PairState> {
    if events == [] then s else Stepped(l, After(l, s, events[..|events| - 1]), events[|events| - 1])
  }

  /** What the loop did at the k-th event. */
  function ActedAt(l: Ladder, s: Option<PairState>, events: seq<Event>, k: nat): Action
    requires k < |events|
  {
    Acted(l, After(l, s, events[..k]), events[k])
  }

  // ---- the cooldown

  /** Sweeps come at non-decreasing times. The handler reads the clock when it calls; a sweep reads it once, at its start,
      so a visit may carry an older time than a handler's call before it. */
  ghost predicate Timely(events: seq<Event>) {
    && (forall i, j :: 0 <= i < j < |events| && events[i].Tick? && events[j].Tick? ==> events[i].at <= events[j].at)
    && (forall i, j :: 0 <= i < j < |events| && !events[j].Tick? ==> events[i].at <= events[j].at)
  }

  ghost predicate Durations(l: Ladder) {
    l.grace >= 0 && forall i :: 0 <= i < |l.backoff| ==> l.backoff[i] >= 0
  }

  /** Nothing the record still holds can lead to a reconnect before `bound`. */
  ghost predicate StartsAfter(s: Option<PairState>, bound: int) {
    s.Some? && s.value.desyncedAt.Some? ==>
      s.value.desyncedAt.value >= bound && (s.value.lastAttemptAt.Some? ==> s.value.lastAttemptAt.value >= bound)
  }

  /** A reconnect at `since` is on record, or no later one can come before its cooldown is over. `clock` bounds the
      handler's next call from below, `swept` the loop's next visit. */
  ghost predicate Held(l: Ladder, s: Option<PairState>, since: int, clock: int, swept: int) {
    || (s.Some? && s.value.escalatedAt.Some? && s.value.escalatedAt.value >= since)
    || (clock >= since + l.cooldown && (swept >= since + l.cooldown || StartsAfter(s, since + l.cooldown)))
  }

  lemma HeldStep(l: Ladder, s: Option<PairState>, e: Event, since: int, clock: int, swept: int)
    requires Durations(l) && Held(l, s, since, clock, swept)
    requires since <= swept <= clock
    requires if e.Tick? then e.at >= swept else e.at >= clock
    ensures Held(l, Stepped(l, s, e), since, Max(clock, e.at), if e.Tick? then e.at else swept)
    ensures Acted(l, s, e) == Reconnect ==> e.at >= since + l.cooldown
  {
  }

  /** The latest time among the first `k` events. */
  function ClockAfter(events: seq<Event>, k: nat): int
    requires 0 < k <= |events|
  {
    if k == 1 then events[0].at else Max(ClockAfter(events, k - 1), events[k - 1].at)
  }

  /** The time of the last visit among the first `k` events, looking back no further than event `i`. */
  function SweptAfter(events: seq<Event>, i: nat, k: nat): int
    requires i < k <= |events|
    decreases k
  {
    if k == i + 1 || events[k - 1].Tick? then events[k - 1].at else SweptAfter(events, i, k - 1)
  }

  lemma {:induction false} TimesBound(events: seq<Event>, i: nat, k: nat, m: nat)
    requires Timely(events) && i < k <= m < |events| && events[i].Tick?
    ensures events[i].at <= SweptAfter(events, i, k) <= ClockAfter(events, k)
    ensures events[m].at >= if events[m].Tick? then SweptAfter(events, i, k) else ClockAfter(events, k)
    decreases k
  {
    if k > i + 1 {
      TimesBound(events, i, k - 1, m);
    } else {
      ClockBound(events, k, m);
    }
  }

  lemma {:induction false} ClockBound(events: seq<Event>, k: nat, m: nat)
    requires Timely(events) && 0 < k <= m < |events|
    ensures ClockAfter(events, k) >= events[k - 1].at
    ensures !events[m].Tick? ==> events[m].at >= ClockAfter(events, k)
  {
    if k > 1 {
      ClockBound(events, k - 1, m);
    }
  }

  /** From a reconnect on, its record or its cooldown stands between it and the next. */
  lemma {:induction false} HeldAlong(l: Ladder, s: Option<PairState>, events: seq<Event>, i: nat, k: nat)
    requires Durations(l) && Timely(events) && i < k < |events|
    requires ActedAt(l, s, events, i) == Reconnect
    ensures Held(l, After(l, s, events[..k]), events[i].at, ClockAfter(events, k), SweptAfter(events, i, k))
    decreases k
  {
    hide Held;
    var prefix := events[..k];
    assert prefix[..k - 1] == events[..k - 1];
    assert prefix[k - 1] == events[k - 1];
    if k == i + 1 {
      ReconnectHeld(l, After(l, s, events[..i]), events[i], ClockAfter(events, k));
    } else {
      HeldAlong(l, s, events, i, k - 1);
      TimesBound(events, i, k - 1, k - 1);
      HeldStep(l, After(l, s, events[..k - 1]), events[k - 1], events[i].at, ClockAfter(events, k - 1), SweptAfter(events, i, k - 1));
    }
  }

  lemma ReconnectHeld(l: Ladder, s: Option<PairState>, e: Event, clock: int)
    requires Acted(l, s, e) == Reconnect
    ensures Held(l, Stepped(l, s, e), e.at, clock, e.at)
  {
  }

  /** Two reconnects for one pair are at least a cooldown apart, through any desyncs, recoveries and losses of the
      connection between them. */
  lemma OncePerCooldown(l: Ladder, s: Option<PairState>, events: seq<Event>, i: nat, j: nat)
    requires Durations(l) && Timely(events) && i < j < |events|
    requires ActedAt(l, s, events, i) == Reconnect && ActedAt(l, s, events, j) == Reconnect
    ensures events[j].at - events[i].at >= l.cooldown
  {
    hide Held, Stepped;
    HeldAlong(l, s, events, i, j);
    TimesBound(events, i, j, j);
    HeldStep(l, After(l, s, events[..j]), events[j], events[i].at, ClockAfter(events, j), SweptAfter(events, i, j));
  }

  // ---- the climb

  function SumFrom(b: seq<int>, i: nat): int
    requires i <= |b|
    decreases |b| - i
  {
    if i == |b| then 0 else b[i] + SumFrom(b, i + 1)
  }

  /** A ladder `k` retries up, the last of them at `last`. */
  function Rung(start: int, k: nat, last: int): Option<PairState> {
    Some(PairState(Some(start), if k == 0 then None else Some(last), k, None))
  }

  /** Visits no more than `delta` apart, the first no more than `delta` after `from`. */
  ghost predicate Paced(from: int, ticks: seq<int>, delta: int) {
    forall i :: 0 <= i < |ticks| ==> VisitBefore(from, ticks, i) <= ticks[i] <= VisitBefore(from, ticks, i) + delta
  }

  function VisitBefore(from: int, ticks: seq<int>, i: nat): int
    requires i < |ticks|
  {
    if i == 0 then from else ticks[i - 1]
  }

  /** The loop's visits to a pair that stays desynced while the client is connected. */
  function Stuck(ticks: seq<int>): (events: seq<Event>)
    ensures |events| == |ticks|
  {
    seq(|ticks|, i requires 0 <= i < |ticks| => Tick(ticks[i], true, true))
  }

  /** The first visit once the wait is over acts, and none before it. */
  lemma {:induction false} NextRung(l: Ladder, start: int, k: nat, last: int, from: int, ticks: seq<int>, delta: int) returns (q: nat)
    requires k <= |l.backoff| && (k == 0 ==> last == start)
    requires Paced(from, ticks, delta) && last <= from <= last + Wait(l, k)
    requires ticks != [] && ticks[|ticks| - 1] >= last + Wait(l, k)
    ensures q < |ticks| && last + Wait(l, k) <= ticks[q] <= last + Wait(l, k) + delta
    ensures forall i :: 0 <= i < q ==> DueNow(l, Rung(start, k, last), ticks[i]) == Ok(NoAction)
    ensures DueNow(l, Rung(start, k, last), ticks[q]) == Ok(if k < |l.backoff| then Retry else Reconnect)
    decreases |ticks|
  {
    hide DueNow;
    RungDue(l, start, k, last, ticks[0]);
    assert from <= ticks[0] <= from + delta;
    if ticks[0] >= last + Wait(l, k) {
      q := 0;
    } else {
      var rest := ticks[1..];
      assert |ticks| > 1 && rest[|rest| - 1] == ticks[|ticks| - 1];
      assert Paced(ticks[0], rest, delta) by {
        forall i | 0 <= i < |rest| ensures rest[i] == ticks[i + 1] {}
      }
      var r := NextRung(l, start, k, last, ticks[0], rest, delta);
      q := r + 1;
      forall i | 0 < i < q ensures DueNow(l, Rung(start, k, last), ticks[i]) == Ok(NoAction) {
        assert ticks[i] == rest[i - 1];
      }
    }
  }

  lemma RungDue(l: Ladder, start: int, k: nat, last: int, at: int)
    requires k <= |l.backoff| && (k == 0 ==> last == start)
    ensures DueNow(l, Rung(start, k, last), at)
      == Ok(if at - last < Wait(l, k) then NoAction else if k < |l.backoff| then Retry else Reconnect)
    ensures Rearmed(l, Rung(start, k, last), at) == Rung(start, k, last)
  {
  }

  /** How often the loop did `a` at the first `k` events. */
  function Count(l: Ladder, s: Option<PairState>, events: seq<Event>, k: nat, a: Action): nat
    requires k <= |events|
  {
    if k == 0 then 0 else Count(l, s, events, k - 1, a) + if ActedAt(l, s, events, k - 1) == a then 1 else 0
  }

  lemma AfterNext(l: Ladder, s: Option<PairState>, events: seq<Event>, k: nat)
    requires k < |events|
    ensures After(l, s, events[..k + 1]) == Stepped(l, After(l, s, events[..k]), events[k])
  {
    assert events[..k + 1][..k] == events[..k];
  }

  /** Visits that do nothing leave the ladder on its rung. */
  lemma {:induction false} StaysOn(l: Ladder, s: Option<PairState>, ticks: seq<int>, j: nat, q: nat, start: int, k: nat, last: int)
    requires k <= |l.backoff| && (k == 0 ==> last == start) && j + q <= |ticks|
    requires After(l, s, Stuck(ticks)[..j]) == Rung(start, k, last)
    requires forall i :: 0 <= i < q ==> DueNow(l, Rung(start, k, last), ticks[j..][i]) == Ok(NoAction)
    ensures After(l, s, Stuck(ticks)[..j + q]) == Rung(start, k, last)
    ensures forall a :: a != NoAction ==> Count(l, s, Stuck(ticks), j + q, a) == Count(l, s, Stuck(ticks), j, a)
  {
    hide DueNow;
    if q > 0 {
      StaysOn(l, s, ticks, j, q - 1, start, k, last);
      assert ticks[j..][q - 1] == ticks[j + q - 1];
      AfterNext(l, s, Stuck(ticks), j + q - 1);
      RungDue(l, start, k, last, ticks[j + q - 1]);
    }
  }

  /** What is left to wait from the k-th rung on. */
  function Remaining(l: Ladder, k: nat): int
    requires k <= |l.backoff|
  {
    Wait(l, k) + SumFrom(l.backoff, k)
  }

  lemma {:induction false} SumFromNonNegative(l: Ladder, k: nat)
    requires Durations(l) && k <= |l.backoff|
    ensures SumFrom(l.backoff, k) >= 0
    decreases |l.backoff| - k
  {
    if k < |l.backoff| {
      SumFromNonNegative(l, k + 1);
    }
  }

  /** One `delta` for each of some steps. */
  function Slack(steps: nat, delta: int): int {
    if steps == 0 then 0 else delta + Slack(steps - 1, delta)
  }

  lemma {:induction false} SlackIs(steps: nat, delta: int)
    requires delta > 0
    ensures Slack(steps, delta) == steps * delta
    ensures Slack(steps, delta) >= 0 && (steps > 0 ==> Slack(steps, delta) >= delta)
  {
    if steps > 0 {
      SlackIs(steps - 1, delta);
    }
  }

  /** From one rung to the next act. */
  lemma ClimbOnce(l: Ladder, s: Option<PairState>, ticks: seq<int>, j: nat, start: int, k: nat, last: int, from: int, delta: int)
    returns (r: nat)
    requires k <= |l.backoff| && (k == 0 ==> last == start)
    requires j < |ticks| && After(l, s, Stuck(ticks)[..j]) == Rung(start, k, last)
    requires Paced(from, ticks[j..], delta) && last <= from <= last + Wait(l, k)
    requires ticks[|ticks| - 1] >= last + Wait(l, k)
    ensures j <= r < |ticks| && last + Wait(l, k) <= ticks[r] <= last + Wait(l, k) + delta
    ensures ActedAt(l, s, Stuck(ticks), r) == if k < |l.backoff| then Retry else Reconnect
    ensures k < |l.backoff| ==> After(l, s, Stuck(ticks)[..r + 1]) == Rung(start, k + 1, ticks[r])
    ensures forall a :: a != NoAction ==> Count(l, s, Stuck(ticks), r, a) == Count(l, s, Stuck(ticks), j, a)
    ensures Paced(ticks[r], ticks[r + 1..], delta)
  {
    hide DueNow, Rearmed, Stepped, Acted, Wait, Count, Paced, Rung;
    var rest := ticks[j..];
    assert rest[|rest| - 1] == ticks[|ticks| - 1];
    var q := NextRung(l, start, k, last, from, rest, delta);
    StaysOn(l, s, ticks, j, q, start, k, last);
    r := j + q;
    assert rest[q] == ticks[r];
    RungActs(l, start, k, last, ticks[r]);
    AfterNext(l, s, Stuck(ticks), r);
    PacedRest(from, rest, delta, q);
    assert rest[q + 1..] == ticks[r + 1..];
  }

  lemma {:induction false} Climb(l: Ladder, s: Option<PairState>, ticks: seq<int>, j: nat, start: int, k: nat, last: int, from: int, delta: int)
    returns (r: nat)
    requires Durations(l) && k <= |l.backoff| && (k == 0 ==> last == start) && delta > 0
    requires j < |ticks| && After(l, s, Stuck(ticks)[..j]) == Rung(start, k, last)
    requires Paced(from, ticks[j..], delta) && last <= from <= last + Wait(l, k)
    requires ticks[|ticks| - 1] >= last + Remaining(l, k) + Slack(|l.backoff| - k + 1, delta)
    ensures j <= r < |ticks| && ActedAt(l, s, Stuck(ticks), r) == Reconnect
    ensures Count(l, s, Stuck(ticks), r, Retry) == Count(l, s, Stuck(ticks), j, Retry) + |l.backoff| - k
    ensures Count(l, s, Stuck(ticks), r, Reconnect) == Count(l, s, Stuck(ticks), j, Reconnect)
    ensures last + Remaining(l, k) <= ticks[r] <= last + Remaining(l, k) + Slack(|l.backoff| - k + 1, delta)
    decreases |l.backoff| - k
  {
    hide ActedAt, After, Paced, Rung;
    SumFromNonNegative(l, k);
    SlackIs(|l.backoff| - k, delta);
    var q := ClimbOnce(l, s, ticks, j, start, k, last, from, delta);
    if k < |l.backoff| {
      SumFromNonNegative(l, k + 1);
      r := Climb(l, s, ticks, q + 1, start, k + 1, ticks[q], ticks[q], delta);
      CountNext(l, s, Stuck(ticks), q);
    } else {
      r := q;
    }
  }

  lemma CountNext(l: Ladder, s: Option<PairState>, events: seq<Event>, k: nat)
    requires k < |events|
    ensures forall a :: Count(l, s, events, k + 1, a) == Count(l, s, events, k, a) + if ActedAt(l, s, events, k) == a then 1 else 0
  {
  }

  lemma PacedRest(from: int, ticks: seq<int>, delta: int, q: nat)
    requires Paced(from, ticks, delta) && q < |ticks|
    ensures Paced(ticks[q], ticks[q + 1..], delta)
  {
    var rest := ticks[q + 1..];
    forall i | 0 <= i < |rest| ensures VisitBefore(ticks[q], rest, i) <= rest[i] <= VisitBefore(ticks[q], rest, i) + delta {
      assert VisitBefore(ticks[q], rest, i) == VisitBefore(from, ticks, q + 1 + i) && rest[i] == ticks[q + 1 + i];
    }
  }

  lemma RungActs(l: Ladder, start: int, k: nat, last: int, at: int)
    requires k <= |l.backoff| && (k == 0 ==> last == start) && at - last >= Wait(l, k)
    ensures Acted(l, Rung(start, k, last), Tick(at, true, true)) == if k < |l.backoff| then Retry else Reconnect
    ensures k < |l.backoff| ==> Stepped(l, Rung(start, k, last), Tick(at, true, true)) == Rung(start, k + 1, at)
  {
    RungDue(l, start, k, last, at);
  }

  /** A pair that desyncs on a fresh ladder, stays desynced and is visited at most `delta` apart while connected gets every
      retry of the schedule and then a reconnect, within one `delta` a step of the time the schedule names. */
  lemma LadderBounds(l: Ladder, start: int, ticks: seq<int>, delta: int) returns (r: nat)
    requires Durations(l) && delta > 0 && ticks != [] && Paced(start, ticks, delta)
    requires ticks[|ticks| - 1] >= start + l.grace + SumFrom(l.backoff, 0) + (|l.backoff| + 1) * delta
    ensures r < |ticks|
    ensures var s, events := Desynced(l, None, start), Stuck(ticks);
      && ActedAt(l, s, events, r) == Reconnect
      && Count(l, s, events, r, Retry) == |l.backoff|
      && Count(l, s, events, r, Reconnect) == 0
    ensures var due := start + l.grace + SumFrom(l.backoff, 0);
      due <= ticks[r] <= due + (|l.backoff| + 1) * delta
  {
    assert ticks[0..] == ticks;
    SlackIs(|l.backoff| + 1, delta);
    r := Climb(l, Desynced(l, None, start), ticks, 0, start, 0, start, start, delta);
  }

  /** A desync starts a fresh ladder exactly when none is running and no escalation is still cooling. */
  lemma FreshExactly(l: Ladder, s: Option<PairState>, at: int)
    ensures Desynced(l, s, at) == Desynced(l, None, at) <==>
      s.None? || s.value == PairState(Some(at), None, 0, None) || (s.value.desyncedAt.None? && !Cooling(l, s.value, at))
  {
  }

  /** After a reconnect the pair is left alone until the cooldown is over, whatever it does meanwhile. */
  lemma {:induction false} QuietAfterReconnect(l: Ladder, s: Option<PairState>, events: seq<Event>, i: nat, j: nat)
    requires i < j < |events| && ActedAt(l, s, events, i) == Reconnect
    requires forall k :: i < k <= j ==> events[k].at - events[i].at < l.cooldown
    ensures ActedAt(l, s, events, j) == NoAction
    ensures After(l, s, events[..j]).Some? && After(l, s, events[..j]).value.escalatedAt == Some(events[i].at)
    decreases j
  {
    AfterNext(l, s, events, j - 1);
    if j > i + 1 {
      QuietAfterReconnect(l, s, events, i, j - 1);
    }
  }
}
