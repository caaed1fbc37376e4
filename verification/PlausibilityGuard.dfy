/** The guard that decides whether a stamp is data at all: `_implausible` and the run cap around it in
    `cli/capture/segment_writer.py`. */
module PlausibilityGuard {
  import opened Prelude
  import opened Clock

  /** The newest accepted stamp with the clock reading it was accepted at, and the current run of refusals. */
  datatype Guard = Guard(maxTs: Option<int>, maxAt: int, drops: nat, lastDropTs: Option<int>)

  predicate Absurd(ts: int, now: int) {
    ts > now + MAX_TS_ABSURD
  }

  predicate Implausible(g: Guard, ts: int, now: int) {
    if Absurd(ts, now) then true
    else if g.drops >= MAX_CONSECUTIVE_DROPS then false
    else if g.maxTs.None? then ts > now + MAX_TS_AHEAD
    else
      var elapsed := Max(now - g.maxAt, 0);
      ts > g.maxTs.value + elapsed + MAX_TS_AHEAD && ts > now + MAX_TS_AHEAD
  }

  function Refused(g: Guard, ts: int): Guard {
    if g.lastDropTs == Some(ts) then g else g.(drops := g.drops + 1, lastDropTs := Some(ts))
  }

  function Rearmed(g: Guard): Guard {
    g.(drops := 0, lastDropTs := None)
  }

  function Anchored(g: Guard, ts: int, now: int): Guard {
    if g.maxTs.None? || ts > g.maxTs.value then g.(maxTs := Some(ts), maxAt := now) else g
  }

  // ---- whole runs

  /** One stamp at one clock reading; `kept` when the row it came on was stored or held. */
  datatype Stamp = Stamp(ts: int, now: int, kept: bool)

  function Judged(g: Guard, s: Stamp): Guard {
    if Implausible(g, s.ts, s.now) then Refused(g, s.ts)
    else if s.kept then Anchored(Rearmed(g), s.ts, s.now)
    else Rearmed(g)
  }

  function After(g: Guard, stamps: seq<Stamp>): Guard {
    if stamps == [] then g else Judged(After(g, stamps[..|stamps| - 1]), stamps[|stamps| - 1])
  }

  predicate RefusedAt(g: Guard, stamps: seq<Stamp>, i: nat)
    requires i < |stamps|
  {
    Implausible(After(g, stamps[..i]), stamps[i].ts, stamps[i].now)
  }

  /** The stamps a run refused although they were not a day ahead. */
  function Doubted(stamps: seq<Stamp>): set<int> {
    set i | 0 <= i < |stamps| && !Absurd(stamps[i].ts, stamps[i].now) :: stamps[i].ts
  }

  lemma {:induction false} RunCounted(g: Guard, stamps: seq<Stamp>)
    requires g.drops == 0 && g.lastDropTs == None
    requires forall i :: 0 <= i < |stamps| ==> RefusedAt(g, stamps, i)
    ensures stamps != [] ==> After(g, stamps).lastDropTs == Some(stamps[|stamps| - 1].ts) && After(g, stamps).drops >= 1
    ensures |Doubted(stamps)| <= MAX_CONSECUTIVE_DROPS
    ensures stamps != [] && After(g, stamps).drops <= MAX_CONSECUTIVE_DROPS ==>
      |Doubted(stamps) + {stamps[|stamps| - 1].ts}| <= After(g, stamps).drops
  {
    if stamps != [] {
      var n := |stamps| - 1;
      var front, last := stamps[..n], stamps[n];
      assert RefusedAt(g, stamps, n);
      forall i | 0 <= i < n ensures RefusedAt(g, front, i) {
        assert RefusedAt(g, stamps, i) && front[..i] == stamps[..i];
      }
      RunCounted(g, front);
      var before := After(g, front);
      assert Doubted(stamps) <= Doubted(front) + {last.ts};
      assert Doubted(front) <= Doubted(stamps) by {
        forall ts | ts in Doubted(front) ensures ts in Doubted(stamps) {
          var i :| 0 <= i < n && !Absurd(front[i].ts, front[i].now) && front[i].ts == ts;
          assert stamps[i] == front[i];
        }
      }
      if Absurd(last.ts, last.now) {
        assert Doubted(stamps) == Doubted(front);
      }
      if n > 0 {
        var widest := Doubted(front) + {front[n - 1].ts};
        if before.lastDropTs == Some(last.ts) {
          assert Doubted(stamps) + {last.ts} <= widest;
          Fewer(Doubted(stamps) + {last.ts}, widest);
        } else {
          assert Doubted(stamps) + {last.ts} <= widest + {last.ts};
          Fewer(Doubted(stamps) + {last.ts}, widest + {last.ts});
        }
      } else {
        assert Doubted(front) == {};
        Fewer(Doubted(stamps) + {last.ts}, {last.ts});
      }
      Fewer(Doubted(stamps), Doubted(stamps) + {last.ts});
    }
  }

  /** Between two accepted stamps the guard refuses at most `MAX_CONSECUTIVE_DROPS` distinct stamps that are
      not a day ahead: its worst case is a bounded loss, never a blackout. */
  lemma RunOfRefusalsBounded(g: Guard, stamps: seq<Stamp>)
    requires g.drops == 0 && g.lastDropTs == None
    requires forall i :: 0 <= i < |stamps| ==> RefusedAt(g, stamps, i)
    ensures |Doubted(stamps)| <= MAX_CONSECUTIVE_DROPS
  {
    RunCounted(g, stamps);
  }

  // ---- a stream whose stamps are the clock plus a constant

  ghost predicate Steady(offset: int, ts: int, at: int) {
    -MAX_TS_AHEAD <= 2 * (ts - at - offset) <= MAX_TS_AHEAD
  }

  ghost predicate SteadyStream(offset: int, stamps: seq<Stamp>) {
    && (forall i :: 0 <= i < |stamps| ==>
         Steady(offset, stamps[i].ts, stamps[i].now) && !Absurd(stamps[i].ts, stamps[i].now))
    && (forall i, j :: 0 <= i < j < |stamps| ==> stamps[i].now <= stamps[j].now)
  }

  ghost predicate AnchoredTo(g: Guard, offset: int, now: int) {
    g.maxTs.Some? && Steady(offset, g.maxTs.value, g.maxAt) && g.maxAt <= now
  }

  lemma {:induction false} SteadyKeepsAnchor(g: Guard, offset: int, stamps: seq<Stamp>, i: nat)
    requires SteadyStream(offset, stamps)
    requires i < |stamps| && AnchoredTo(g, offset, stamps[0].now)
    ensures AnchoredTo(After(g, stamps[..i]), offset, stamps[i].now)
  {
    if i > 0 {
      SteadyKeepsAnchor(g, offset, stamps, i - 1);
      assert stamps[..i][..i - 1] == stamps[..i - 1] && stamps[..i][i - 1] == stamps[i - 1];
    } else {
      assert stamps[..0] == [];
    }
  }

  /** Once anchored, a stream whose stamps are a never-backward clock plus any constant offset, jittered by at
      most half the window and never a day ahead, loses nothing, whatever the offset and however long its silences. */
  lemma SteadyStreamNeverRefused(g: Guard, offset: int, stamps: seq<Stamp>)
    requires SteadyStream(offset, stamps)
    requires stamps != [] ==> AnchoredTo(g, offset, stamps[0].now)
    ensures forall i :: 0 <= i < |stamps| ==> !RefusedAt(g, stamps, i)
  {
    forall i | 0 <= i < |stamps| ensures !RefusedAt(g, stamps, i) {
      SteadyKeepsAnchor(g, offset, stamps, i);
    }
  }

  // ---- the rows of one message

  /** How many of some rows sharing one stamp and one clock reading the guard lets in; each says whether it is stored or
      held once let in, or dropped there as late or a replay. */
  function RowsLetIn(g: Guard, ts: int, now: int, kept: seq<bool>): nat
    decreases |kept|
  {
    if kept == [] then 0
    else
      (if Implausible(g, ts, now) then 0 else 1) + RowsLetIn(Judged(g, Stamp(ts, now, kept[0])), ts, now, kept[1..])
  }

  /** A stamp the guard refuses unless it has stood down. */
  predicate Doubtful(g: Guard, ts: int, now: int) {
    Implausible(g.(drops := 0), ts, now)
  }

  lemma {:induction false} AllLetIn(g: Guard, ts: int, now: int, kept: seq<bool>)
    requires !Doubtful(g, ts, now)
    ensures RowsLetIn(g, ts, now, kept) == |kept|
    decreases |kept|
  {
    if kept != [] {
      AllLetIn(Judged(g, Stamp(ts, now, kept[0])), ts, now, kept[1..]);
    }
  }

  lemma {:induction false} NoneLetIn(g: Guard, ts: int, now: int, kept: seq<bool>)
    requires Implausible(g, ts, now) && (Absurd(ts, now) || g.lastDropTs == Some(ts) || g.drops + 1 < MAX_CONSECUTIVE_DROPS)
    ensures RowsLetIn(g, ts, now, kept) == 0
    decreases |kept|
  {
    if kept != [] {
      NoneLetIn(Refused(g, ts), ts, now, kept[1..]);
    }
  }

  /** How many rows of a doubtful message are refused before the run of refusals is exhausted, if it ever is: none when
      it already was, one when two stamps were refused before it and it is a third. */
  function RefusedFirst(g: Guard, ts: int): Option<nat> {
    if g.drops >= MAX_CONSECUTIVE_DROPS then Some(0)
    else if g.drops + 1 == MAX_CONSECUTIVE_DROPS && g.lastDropTs != Some(ts) then Some(1)
    else None
  }

  /** What becomes of one message, exactly: no row of one a day ahead and every row of one not doubtful is let in. Of a
      doubtful one none is, unless it finds or makes the run of refusals exhausted: then one row is let in, and with it all
      behind it if that one is stored or held. The comment on `MAX_CONSECUTIVE_DROPS` says a message cannot do this. */
  lemma MessageTornExactly(g: Guard, ts: int, now: int, kept: seq<bool>)
    ensures RowsLetIn(g, ts, now, kept) ==
      if Absurd(ts, now) then 0
      else if !Doubtful(g, ts, now) then |kept|
      else match RefusedFirst(g, ts)
        case None => 0
        case Some(c) => if |kept| <= c then 0 else if kept[c] then |kept| - c else 1
  {
    if Absurd(ts, now) {
      NoneLetIn(g, ts, now, kept);
    } else if !Doubtful(g, ts, now) {
      AllLetIn(g, ts, now, kept);
    } else {
      match RefusedFirst(g, ts)
      case None => NoneLetIn(g, ts, now, kept);
      case Some(c) =>
        if kept != [] {
          if c == 0 {
            FirstLetIn(g, ts, now, kept);
          } else {
            FirstLetIn(Refused(g, ts), ts, now, kept[1..]);
          }
        }
    }
  }

  /** A doubtful row a stood-down guard lets in anchors the stream when it is kept, and only re-arms the guard when not. */
  lemma FirstLetIn(g: Guard, ts: int, now: int, kept: seq<bool>)
    requires !Absurd(ts, now) && Doubtful(g, ts, now) && g.drops >= MAX_CONSECUTIVE_DROPS
    ensures RowsLetIn(g, ts, now, kept) == if kept == [] then 0 else if kept[0] then |kept| else 1
  {
    if kept != [] {
      if kept[0] {
        AllLetIn(Anchored(Rearmed(g), ts, now), ts, now, kept[1..]);
      } else {
        NoneLetIn(Rearmed(g), ts, now, kept[1..]);
      }
    }
  }

  /** A fresh process, one stamp at its clock, then two stamps ten and fifteen minutes ahead. */
  function TwoRefused(now: int): seq<Stamp> {
    [Stamp(now, now, true), Stamp(now + 2 * MAX_TS_AHEAD, now, true), Stamp(now + 3 * MAX_TS_AHEAD, now, true)]
  }

  lemma TwoRefusedLeave(now: int)
    ensures After(Guard(None, now, 0, None), TwoRefused(now)) == Guard(Some(now), now, 2, Some(now + 3 * MAX_TS_AHEAD))
    ensures RefusedAt(Guard(None, now, 0, None), TwoRefused(now), 1) && RefusedAt(Guard(None, now, 0, None), TwoRefused(now), 2)
  {
    var stamps := TwoRefused(now);
    assert stamps[..2][..1] == stamps[..1] && stamps[..1][..0] == [];
    assert After(Guard(None, now, 0, None), stamps[..1]) == Guard(Some(now), now, 0, None);
    assert After(Guard(None, now, 0, None), stamps[..2]) == Guard(Some(now), now, 1, Some(now + 2 * MAX_TS_AHEAD));
    assert stamps[..3] == stamps;
  }

  /** A torn message the writer can receive: at any clock, two refused stamps behind it and twenty minutes ahead, all its
      rows but the first are let in. */
  lemma TornMessageReached(now: int, kept: seq<bool>)
    requires |kept| >= 2 && kept[1]
    ensures RowsLetIn(After(Guard(None, now, 0, None), TwoRefused(now)), now + 4 * MAX_TS_AHEAD, now, kept) == |kept| - 1
  {
    TwoRefusedLeave(now);
    MessageTornExactly(Guard(Some(now), now, 2, Some(now + 3 * MAX_TS_AHEAD)), now + 4 * MAX_TS_AHEAD, now, kept);
  }
}
