# Verified model of the zcrypto capture, archive and replay logic

A Dafny model of the parts of the repository that carry its hard invariants, with proofs that they hold.
`dafny verify dfyconfig.toml` checks everything. Time is whole microseconds (seconds in the bar
aggregation, days in the rolling set), quantities are integers or reals, SHA-256 is an injective
constructor, the clock, the random generator and the checksum recipe are arbitrary inputs.

* **Capture writer** (`Clock`, `HourOracle`, `PlausibilityGuard`, `SegmentFiles`, `MergeProtocol`,
  `Writer*`, `SegmentWriter`). The disk is the sequence of trees it has shown; every rename, write and
  unlink appends one, so a kill is any prefix. `SegmentWriter` is the imperative writer, each method
  equal to a specification function of `WriterModel`; the `Writer*` modules prove what those functions
  keep over one event, a run, a life and a whole history of lives.
* **Reconciliation** (`Reconcile`, `Residuals`, `Spans`, `Settle`, `Ledger`, `Reconciling`). Silences,
  witnesses, the splice, what it leaves, the fleet's dark windows and the append-only ledger that counts
  each lost microsecond once; `Reconciling` runs an hour through all of them.
* **Rolling set and replay** (`Rolling`, `RollingExtend`, `RollingRestart`, `Messages`, `Replay`). The hash
  chain, the write-once extender with a stop after any rename, and checkpointed verification against the
  full sweep.
* **Fast forms** (`Bootstrap`, `Aggregate`, `ModelInputs`). Circular bootstrap blocks against index draws,
  two-stage aggregation against one stage, live builder inputs against journaled ones.
* **Small protocols** (`OrderBook`, `DesyncRecovery`). The depth-limited book against the venue's window,
  and the retry ladder with its driver loop.

Where the code and its own documentation disagree, the model follows the code and says when the promise holds:

* The comment on `MAX_CONSECUTIVE_DROPS` says a bad message can never let the rest of itself in. It can
  when two distinct stamps were refused just before it: `MessageTornExactly` says when, and
  `TornMessageReached` is a run from a fresh guard that gets there.
* The confirmed hour is meant to lie below every held hour. It may pass one, until the stream itself speaks:
  `HeldPastConfirmedExactly` says when an event leaves it below, `ConfirmedWhileHeld` shows two other streams
  passing a held hour.
* "No part beside a final" holds of a start exactly when its clock, with the window, has reached every
  published or committed hour: `NoPartBesideFinalExactly`; `ReopenedBesideFinal` gives the run that breaks it, for any
  configuration.
* `regroup_messages` is called the inverse of the fan-out; it is exactly for the messages `RoundTripExactly`
  names, and for any others it gives what `RegroupsMerged` says (`EmptyIsLost`, `NeighboursJoin`).
* An extension that was stopped is said to complete on the next run. One that would be refused may instead be
  overtaken by a line it found ahead of its files: `StopAndRerun` says exactly when, and `OvertakenReached` is a set
  and a tape where it is.
* `select_model_inputs` is called idempotent over alignment; with repeated stamps it need not be
  (`LiveAndReplayedAgree`, `RepeatedStampDisagrees`). `read_store_series` itself does not look for them, nor does the
  cycle's check of each pair's last stamp; on the cycle's path the store's integrity check
  (`cli/engine/store.py:290`) refuses them first.

## Model

| member | source | states |
|---|---|---|
| HourOracles.HourOracle.Observe | cli/capture/segment_writer.py:164-184 | a stream's witness becomes the newest of what it vouched for, clamped at the clock plus the window |
| HourOracles.HourOracle.ConfirmedHour | cli/capture/segment_writer.py:186-193 | the stored hour only ever moves up, to the hour the second-newest witness has reached; the answer is that hour |
| HourOracles.SecondNewestReached | cli/capture/segment_writer.py:188-190 | the second entry of the descending list has reached an instant iff two witnesses have |
| HourOracles.AskedConfirms | cli/capture/segment_writer.py:186-193 | after one question an hour is confirmed iff it was before, or two distinct streams, or one stream and the clock a margin past it, have reached it |
| HourOracles.ConfirmedExactlyByQuorum | cli/capture/segment_writer.py:164-193 | over every run from a fresh process: an hour is confirmed iff at some question two distinct streams had each vouched for it inside the clock's window, or one had and the clock itself was a margin past it |
| HourOracles.ConfirmedStays | cli/capture/segment_writer.py:151-153 | a confirmed hour stays confirmed whatever follows, clocks stepping back included |
| HourOracles.NeverConfirmedEarly | cli/capture/segment_writer.py:167-182 | the confirmed hour is never more than the window past some clock reading of the run |
| PlausibilityGuard.RunOfRefusalsBounded | cli/capture/segment_writer.py:74-93 | an unbroken run of refusals doubts at most three distinct stamps that are not a day ahead |
| PlausibilityGuard.SteadyStreamNeverRefused | cli/capture/segment_writer.py:580-635 | once anchored, a stream that is a never-backward clock plus any constant offset, jittered by at most half the window and never a day ahead, has no stamp refused |
| PlausibilityGuard.MessageTornExactly | cli/capture/segment_writer.py:356-369 | for any guard and any message, whichever of its rows are then kept, replayed or late: no row of a stamp a day ahead is let in, every row of one not doubtful is, and of a doubtful one none unless the run of refusals is exhausted before it or by its first row; then the next row is let in, and all behind it iff that row is kept |
| PlausibilityGuard.TornMessageReached | cli/capture/segment_writer.py:90-93 | from a fresh guard two refused stamps and then, at any clock, a message of any length whose second row is kept: all its rows but the first are let in |
| SegmentFiles.PutWrites | cli/capture/segment_writer.py:749-771 | a part or spill goes in under a number past all there: its rows come last in listing order, no file is replaced, no other hour or kind changes, one new image is shown |
| SegmentFiles.FlatAppends | cli/capture/segment_writer.py:749-764 | a file numbered past all there reads last, the rows before it unchanged |
| MergeProtocol.UnlinkAllMoves | cli/capture/segment_writer.py:903-904 | unlinking parts beside a durable merge: every image on the way is sound and loses nothing, and exactly the parts are gone at the end |
| MergeProtocol.CommitMoves | cli/capture/segment_writer.py:888-905 | manifest, unlinks, rename: every image on the way is sound, and the final is the merged rows with their digest as sidecar |
| MergeProtocol.MergeHourMoves | cli/capture/segment_writer.py:798-886 | a merge leaves the hour alone when there are no parts, an uncommitted merge or a final; else the final is the parts' rows in sequence order |
| MergeProtocol.RedeemMoves | cli/capture/segment_writer.py:702-722 | redeemed spills become parts behind the parts there, row order kept, through sound images only |
| MergeProtocol.MergeAllMoves | cli/capture/segment_writer.py:1020-1032 | a sweep publishes each swept hour whole and touches no other hour |
| MergeProtocol.RecoverMoves | cli/capture/segment_writer.py:942-976 | recovery from any sound tree publishes every interrupted merge and moves no other file |
| WriterSoundness.FlushedMoves | cli/capture/segment_writer.py:743-771 | the buffer becomes the open hour's next part, its rows behind the rows there |
| WriterSoundness.EnteredSound | cli/capture/segment_writer.py:493-521 | entering an hour, first of a process or next of the stream, keeps the invariant and every hour's rows, and opens that hour |
| WriterConservation.AdmittedSound | cli/capture/segment_writer.py:523-538 | an admitted row comes last in its hour unless, with a de-dup key, an unpublished row of the hour has its key; no other hour and no final changes |
| WriterConservation.HeldBackSound | cli/capture/segment_writer.py:540-578 | a held row comes last in its own hour, in memory or spilled, unless it replays one; the open hour and the invariant stay |
| WriterConservation.SpilledSound | cli/capture/segment_writer.py:574-578 | a spill moves the held rows to disk and changes no hour's rows |
| WriterConservation.DrainedSound | cli/capture/segment_writer.py:388-396 | draining hours oldest first moves every row of them into their hours, loses and reorders none, and publishes nothing at or past the newest |
| WriterRuns.AppendConserves | cli/capture/segment_writer.py:356-400 | one event, whatever its stamp and whatever each of its steps reads of the clock: the invariant holds, the disk has only moved forward, and exactly the row its fate names (decided from the rows the hour holds, not from the key sets) is added, last in the hour its stamp names |
| WriterLives.ClosedConserves | cli/capture/segment_writer.py:402-420 | a stop leaves on disk every row of every hour, in order, with nothing left in memory |
| WriterLives.FloorCoversExactly | cli/capture/segment_writer.py:989-1018 | a published hour is behind the floor a start reads iff it is not dated past the clock's window |
| WriterLives.ConstructedSound | cli/capture/segment_writer.py:316-354 | a start on any sound tree holds exactly the rows the tree holds, hour by hour |
| WriterHistories.RunConserves | cli/capture/segment_writer.py:356-420 | any run of events, other streams' sightings and stops, from any sound state: each hour ends as it began plus the rows taken of it, in the order taken |
| WriterHistories.CrashSafe | cli/capture/segment_writer.py:888-905 | over any number of processes fed anything and killed between any two file steps, from an empty tree: an hour's durable rows only grow at the end, a final never changes and its manifest is its digest, no merge lies beside a final, every row sits under the hour of its stamp, and with a de-dup key neither the unpublished rows nor the final repeat a key |
| WriterHistories.NeverClosedEarly | cli/capture/segment_writer.py:164-193 | with an oracle, an hour is published, or committed to being published, only after some clock reading a guard or the oracle made by then came within the window of its end |
| WriterHistories.NoPartBesideFinal | cli/capture/segment_writer.py:989-1018 | with an oracle, no part ever lies beside a final if no process starts on a clock behind an earlier reading |
| WriterHistories.NoPartBesideFinalFrom | cli/capture/segment_writer.py:989-1018 | nor, with or without an oracle, in any history each of whose starts has a clock not behind the finals and manifests it finds |
| WriterHistories.KilledKeepsPrefix | cli/capture/segment_writer.py:749-771 | a kill leaves of each hour what was found plus a prefix of what was taken |
| WriterHistories.StoppedKeepsAll | cli/capture/segment_writer.py:402-420 | a stop leaves of each hour all that was found and taken |
| WriterLimits.KilledLosesFew | cli/capture/segment_writer.py:537-538 | a kill costs each hour fewer than `flush_rows` of the rows taken of it |
| WriterLimits.NothingAbsurdKept | cli/capture/segment_writer.py:619-628 | over any history whose clock readings are bounded, no row in any tree is stamped more than a day past the latest reading |
| WriterLimits.AppendDrains | cli/capture/segment_writer.py:380-400 | an hour still held after an event is newer than the event or not confirmed, and ahead of the open hour |
| WriterLimits.HeldPastConfirmedExactly | cli/capture/segment_writer.py:380-400 | for any event: afterwards the confirmed hour covers the open hour and no held one iff the question the event asks (none, if it is dropped) confirms no hour held before it past its own |
| WriterLimits.ConfirmedWhileHeld | cli/capture/segment_writer.py:380-399 | two other streams can confirm an hour this writer still holds |
| WriterLimits.ReopenedBesideFinal | cli/capture/segment_writer.py:1005-1012 | any writer, any oracle, key and flush size: a start whose clock lags a published or committed hour by more than the window has a life that writes a part beside the final |
| WriterLimits.NoPartBesideFinalExactly | cli/capture/segment_writer.py:989-1018 | every life born at an instant on a sound tree keeps parts apart from finals in every image iff the tree does and the clock, with the window, has reached every published or committed hour |
| SegmentWriters.SegmentWriter.constructor | cli/capture/segment_writer.py:316-354 | a start is `Constructed` of the tree it finds and the clock, the state `ConstructedSound` is about |
| SegmentWriters.SegmentWriter.RecoverDisk | cli/capture/segment_writer.py:942-1018 | the loop commits every interrupted merge without a final, as `Recover` does, then reads the floor off the tree that leaves |
| SegmentWriters.SegmentWriter.CommitMerge | cli/capture/segment_writer.py:888-905 | manifest, a loop of unlinks in number order, rename: image by image the disk of `Commit`, which `CommitMoves` proves sound throughout |
| SegmentWriters.SegmentWriter.MergeHourParts | cli/capture/segment_writer.py:798-859 | nothing to merge, a merge under way or a final: no step; else write and commit, as `MergeHour` |
| SegmentWriters.SegmentWriter.FlushBuffer | cli/capture/segment_writer.py:743-747 | an empty buffer writes nothing; else its rows become the open hour's next part and it is emptied (`Flushed`) |
| SegmentWriters.SegmentWriter.FinalizeHour | cli/capture/segment_writer.py:793-796 | flush, then merge (`Finalized`) |
| SegmentWriters.SegmentWriter.Sweep | cli/capture/segment_writer.py:1020-1032 | a loop merges, oldest first, each hour before the given one that has parts (`Swept`) |
| SegmentWriters.SegmentWriter.RedeemHeld | cli/capture/segment_writer.py:702-722 | a loop moves the hour's spills behind its parts, in number order, until none is left (`Redeem`) |
| SegmentWriters.SegmentWriter.OpenHour | cli/capture/segment_writer.py:687-700 | spills redeemed, the hour made current, keys seeded from the parts then on disk (`Opened`) |
| SegmentWriters.SegmentWriter.EnterHour | cli/capture/segment_writer.py:493-521 | first hour of the process, next hour of the stream, or the open hour: the three branches of `Entered` |
| SegmentWriters.SegmentWriter.Admit | cli/capture/segment_writer.py:523-538 | a replayed key anchors and buffers nothing; else anchor, buffer, key and, when full, flush (`Admitted`) |
| SegmentWriters.SegmentWriter.Hold | cli/capture/segment_writer.py:540-578 | the replay test looks at disk and window; a row kept is anchored and held, and a full window spilled (`HeldBack`) |
| SegmentWriters.SegmentWriter.Append | cli/capture/segment_writer.py:356-400 | writer and oracle after one event, the guard, the witness, the question and each anchor on their own clock readings, are those of `Appended`, the function `AppendConserves` and every history theorem are about |
| SegmentWriters.SegmentWriter.Close | cli/capture/segment_writer.py:402-420 | the buffer and each held hour written, nothing published (`Closed`) |
| Reconcile.StampsAreAscending | cli/archive/reconcile.py:66-114 | dropping equal neighbours of a non-decreasing stream leaves each stamp once, ascending |
| Reconcile.PartitionGaps | cli/archive/reconcile.py:254-274 | the loop's two lists, and each refusal, are those of the specification |
| Reconcile.SilencesAreSilent | cli/archive/reconcile.py:215-251 | the windows are in order, hold no primary message, are bounded by messages or the hour as their flags say, and exceed the threshold unless the hour is empty |
| Reconcile.EverySilenceFound | cli/archive/reconcile.py:215-251 | every stretch of the hour wider than the threshold without a primary message lies in a window |
| Reconcile.PartitionSplits | cli/archive/reconcile.py:254-274 | each window is on exactly one side, the one a secondary update decides |
| Reconcile.SpliceBook | cli/archive/reconcile.py:376-416 | the cursor loop's blocks are those of the specification, for any gaps |
| Reconcile.SpliceConserves | cli/archive/reconcile.py:376-416 | primary blocks concatenate to the whole primary; secondary blocks are the rows each gap owns; the minted hour never steps back, so re-measuring is never refused; at each instant it holds one source's rows whole, and no gap owns an instant of the primary |
| Reconcile.SameInstants | cli/archive/reconcile.py:376-416 | streams that never step back and agree at each instant are equal, so the above fixes the minted hour |
| Residuals.MeasureResidual | cli/archive/reconcile.py:298-345 | the loop computes the specification's windows, or the refusal of a stream that steps back |
| Residuals.ResidueExact | cli/archive/reconcile.py:298-345 | one gap's residual is, in order, exactly the stretches wider than the threshold between neighbouring bounds |
| Residuals.ResidualSound | cli/archive/reconcile.py:298-345 | residual windows are disjoint, in order, inside their gaps, over the threshold and free of messages |
| Residuals.ResidualComplete | cli/archive/reconcile.py:298-345 | every uninterrupted stretch of a gap over the threshold is inside a residual window |
| Residuals.DetectPredictsMint | cli/archive/command.py:958-982 | with a threshold of at least zero, measuring the witness and measuring the minted hour give the same list, ownership flags included |
| Residuals.HealedNeverNegative | cli/archive/command.py:353-364 | claimed less unfilled is never negative |
| Spans.Merge | cli/archive/reconcile.py:348-366 | merging windows sorted by start gives windows apart that cover the same time |
| Spans.OverlapSeconds | cli/archive/reconcile.py:348-373 | for any two lists, each span's time inside the union of the windows, counted once per span |
| Spans.DisjointOverlap | cli/archive/reconcile.py:348-373 | for spans sharing nothing the overlap is the measure of the intersection of the two unions |
| Spans.BookedOnce | cli/archive/command.py:329-365 | length less overlap is the measure of what only the new windows cover |
| Settle.FleetDarkExact | cli/archive/settle.py:167-198 | a window is booked dark iff it is a silence of all the stamps together and wider than the threshold |
| Settle.ContainingIsTheSilence | cli/archive/settle.py:201-262 | for a window of positive width the search finds the one silence of the stream around it, and nothing iff a stamp lies strictly inside |
| Settle.SearchIsScan | cli/archive/settle.py:201-262 | binary search and linear scan agree on windows of positive width |
| Settle.ZeroWidthExactly | cli/archive/settle.py:201-262 | on a window without width they agree iff it is neither the hour's end nor at a stamp inside the hour |
| Settle.StreamSilenceFound | cli/archive/settle.py:201-262 | each stream of the fleet has exactly one silence around each dark window, and the search returns it |
| Settle.OwnNeverExceedsHour | cli/archive/command.py:826-841 | one stream's own windows are disjoint, so their summed length is what they cover and at most the hour |
| Ledger.ComputeTotals | cli/archive/command.py:368-444 | the pass with its dictionary and measured set computes, for any ledger, each record's contribution summed |
| Ledger.TotalsNeverFall | cli/archive/command.py:368-444 | no counter falls when records without negative fields are appended |
| Ledger.LossesAre | cli/archive/command.py:288-326 | the accumulated losses of a stream and hour are the union of its booked dark windows and its first heal's residual |
| Ledger.RecordAddsNew | cli/archive/command.py:842-846 | a fleet record or a first heal adds to the residual exactly the microseconds nothing had booked before it; a later heal adds nothing |
| Ledger.BookedNeverNegative | cli/archive/command.py:329-365 | neither subtraction goes below zero |
| Ledger.EveryLossOnce | cli/archive/command.py:368-444 | over any ledger written by these steps or in the older record forms, in any order of decisions, the residual total is the size of the union of all that was lost, plus what the other kinds of record state |
| Ledger.SameLossesSameResidual | cli/archive/command.py:368-444 | ledgers that say the same was lost count the same |
| Ledger.EitherOrder | cli/archive/command.py:288-365 | fleet first or heal first, the two add the measure of the union of their windows |
| Ledger.FlipAddsNothing | cli/archive/command.py:368-444 | an hour decided in detect-only and minted later adds nothing more to the residual or the gap rate |
| Ledger.ReconcileLedger.Append | cli/archive/command.py:714-721 | a decided key changes nothing, any other record comes last |
| Ledger.ReconcileLedger.BookDark | cli/archive/command.py:842-849 | one fleet record per hour, each stream charged its own windows less what its first heal booked |
| Ledger.ReconcileLedger.BookHeal | cli/archive/command.py:329-365 | one heal record per decision, its residual less what the fleet record booked |
| Reconciling.EntryIsExact | cli/archive/command.py:353-364 | what a heal books of a partition's gaps: healed is the time of the gaps not left, residual the time left that the fleet had not booked; none negative |
| Reconciling.HealHour | cli/archive/command.py:896-1004 | one pair's hour: refusal, unwitnessed windows, detect-only or mint; the ledger stays in form and no total falls |
| Reconciling.DarkHour | cli/archive/command.py:806-885 | the fleet's hour: each present stream its own windows or, short of a mirror, the fleet's; the ledger stays in form and no total falls |
| Reconciling.ReconcileHour | cli/archive/command.py:740-1004 | one hour of a cycle over every stream, torn and absent mirrors included: no total falls, and the residual is each lost microsecond of each stream once |
| Rolling.Walk | cli/data/rolling.py:229-248 | the loop returns the specification's chain or refusal |
| Rolling.WalkIsLinked | cli/data/rolling.py:229-248 | a walk returns a base, then consecutive days each naming the digest of the line below, each read under its own day |
| Rolling.PinDeterminesChain | cli/data/rolling.py:229-248 | if both walks succeed and the two lines of one day have equal digests, the chains are equal line by line |
| Rolling.PinDeterminesRead | cli/data/rolling.py:282-324 | two successful reads under equal digests return the same bars, holes and line, whether or not either accepts holes |
| Rolling.VerifiedReads | cli/data/rolling.py:261-324 | on a verified set a read is refused only for its pair, its grid, a hole in the window, or an attested file that is no frame |
| RollingExtend.PlanAdvances | cli/data/rolling.py:491-524 | every planned day brings the plan nearer the tape's newest final, or reaches the day a close waits for: `while True` ends |
| RollingExtend.PlannedReads | cli/data/rolling.py:491-524 | a planned line, written, reads back as itself, names each pair once and links to the line it follows |
| RollingExtend.PlanFollows | cli/data/rolling.py:491-524 | every line of a plan is accepted by the reader and links to the one before it |
| RollingExtend.PlanResumes | cli/data/rolling.py:491-524 | a close-free plan resumed from any of its lines is the rest of it |
| RollingExtend.NeverRewrites | cli/data/rolling.py:381-396 | no file or line present at any moment changes afterwards, refused runs included |
| RollingExtend.RollingSet.Place | cli/data/rolling.py:381-396 | equal bytes are accepted, others refuse, an absent destination is one rename |
| RollingExtend.RollingSet.Extend | cli/data/rolling.py:527-550 | head, plan, then each day's files before its line, stopping at the first refusal: every tree shown and the refusal are the specification's |
| RollingRestart.HeadExactly | cli/data/rolling.py:251-258 | the head is a line iff its chain walks, its files are there, and every newer line lacks a file |
| RollingRestart.StopAndRerun | cli/data/rolling.py:527-550 | stopped after any rename and rerun on the same tape, a close-free extension ends with the uninterrupted run's tree, and with its refusal when it refuses, iff the stop has no line with all its files there for the day that refusal is of |
| RollingRestart.OvertakenReached | cli/data/rolling.py:251-258 | a set, a tape and a stop where there is one: a pulled line whose missing file the refused run placed; the rerun starts from that line and is refused nothing |
| RollingRestart.LinesHaveTheirFiles | cli/data/rolling.py:527-550 | at every moment of any run, closed by the owner or refused, a line the run wrote reads and has all its files |
| RollingRestart.FinishedSetWalks | cli/data/rolling.py:527-550 | a finished set, the owner's close included, has a head, its whole chain walks, and no written line is newer |
| Messages.Regroup | cli/archive/replay.py:47-69 | the loop groups consecutive rows as the specification does |
| Messages.RegroupsMerged | cli/archive/replay.py:47-69 | regrouping the rows of any messages gives those messages with the empty ones dropped and what is left of one key in a row joined, bids to bids and asks to asks |
| Messages.RoundTripExactly | cli/capture/command.py:210-223 | regrouping the fanned-out rows gives back the messages iff none was empty and no two neighbours shared stamp, symbol, type and checksum |
| Messages.EmptyIsLost | cli/archive/replay.py:47-69 | an empty message is lost wherever it stood: the rows regroup as if it had not been there |
| Messages.NeighboursJoin | cli/archive/replay.py:47-69 | two messages of one key in a row come back as one |
| Replay.ChainAnchor | cli/archive/replay.py:112-127 | the loop's verdicts are the fold's |
| Replay.ChainAnchorExactly | cli/archive/replay.py:112-127 | an hour is anchored iff some hour of its pair at or before it opened with a snapshot and every hour from there to it is present and error-free |
| Replay.ReplayDue | cli/archive/replay.py:319-347 | unseen hours always, then stale ones oldest first up to the drain's end |
| Replay.VerifyIncremental | cli/archive/replay.py:284-396 | the run's verdicts, census and checkpoint, or the refusal to evict, are the specification's |
| Replay.StaysFaithful | cli/archive/replay.py:220-260 | every run leaves a checkpoint whose rows are what replaying the named bytes finds, for exactly the hours present |
| Replay.ReusedNotStale | cli/archive/replay.py:210-217 | a reused hour is one the stale test passed |
| Replay.IncrementalIsFull | cli/archive/replay.py:284-396 | with nothing pending and every reused sidecar naming its bytes, the verdicts are the fold of a from-scratch replay of every hour and the audit finds nothing |
| Replay.RotIsReported | cli/archive/replay.py:263-276 | bytes that no longer match a reused row's sidecar are reported whenever the audit draws that hour |
| Bootstrap.DrawRow | cli/alpha/b2.py:451-463 | one row of indices, draw by draw |
| Bootstrap.BootstrapChunks | cli/alpha/b2.py:451-463 | the chunks concatenate to all the rows, each full but the last |
| Bootstrap.DrawBlocks | cli/alpha/b2.py:553-558 | one resample's blocks expand mod n to the same indices, after the same number of draws |
| Bootstrap.StationaryBootstrapBlocks | cli/alpha/b2.py:541-563 | for every stream of draws, every resample's blocks expand to that resample's row of the index form |
| Bootstrap.BlockSumIsDirect | cli/alpha/b2.py:603-606 | the running totals at a block's ends, wrap included, are the sum over its indices |
| Bootstrap.ResampleTotal | cli/alpha/b2.py:600-607 | one resample's total is the column's sum over its indices |
| Bootstrap.ContrastTotals | cli/alpha/b2.py:594-607 | so for every column and every resample |
| Bootstrap.ReentryPositions | cli/alpha/b2.py:687-709 | the counter gives the full-long size at exactly the flat closes with a fire behind them, no long close since, and fewer than `hold` flat closes from it |
| Aggregate.FillBuckets | cli/backfill/aggregate.py:9-12 | each bucket holds exactly its rows, in the order they came |
| Aggregate.AggregateMinutes | cli/backfill/aggregate.py:4-25 | one bar per bucket in order, the fold of the bucket's rows in stamp order, and its reconstructed price |
| Aggregate.FoldIs | cli/backfill/aggregate.py:17-22 | a fold has the first open, the last close and the extremes some row reached |
| Aggregate.SortStable | cli/backfill/aggregate.py:16 | rows of one stamp keep the order they came in |
| Aggregate.RollsUp | cli/backfill/substrate15m.py:98-112 | on any frame in stamp order the group-by roll-up gives the bars of the aggregator |
| Aggregate.TwoStagesAreOne | cli/backfill/substrate15m.py:98-112 | minutes aggregated to m, stored in any order, sorted and rolled up by group to m*k are the bars of m*k: stamp, open, high, low, close, volume, count, for any rows |
| ModelInputs.SelectModelInputs | cli/engine/cycle.py:279-313 | the loop's calendar and columns, or the missing legs, are the specification's |
| ModelInputs.LiveAndReplayedAgree | cli/engine/cycle.py:285-302 | raw and journal-aligned series reach the builder alike iff at every stamp some leg closes, some leg's last entry there is a close |
| ModelInputs.DistinctStampsAgree | cli/engine/cycle.py:285-302 | series with distinct stamps always do |
| ModelInputs.RepeatedStampDisagrees | cli/engine/cycle.py:285-302 | for any stamp and close, all twelve files holding that close and then an unclosed row under that stamp: the live calendar is the stamp, the replayed one is empty |
| ModelInputs.CrossesNeverEnter | cli/engine/cycle.py:289-293 | what the BTC-quoted pairs hold never reaches the builder |
| OrderBooks.OrderBook.Prune | cli/capture/book.py:55-73 | both sides cut to their best `depth` levels |
| OrderBooks.OrderBook.Validate | cli/capture/book.py:109-112 | the verdict, and `desynced` its negation |
| OrderBooks.OrderBook.IngestSnapshot | cli/capture/book.py:75-81 | the new book and verdict, or what a bad level leaves behind |
| OrderBooks.OrderBook.IngestUpdate | cli/capture/book.py:83-89 | the new book and verdict, or what a bad level leaves behind |
| OrderBooks.ApplySide | cli/capture/book.py:92-98 | the levels applied in order, up to one that cannot be read |
| OrderBooks.PrunedIsWindow | cli/capture/book.py:70-73 | pruning keeps exactly the prices with fewer than `depth` better ones |
| OrderBooks.UpdateFollows | cli/capture/book.py:58-73 | an update that carries each level entered or changed in the window and a zero for each window level deleted takes the old window to the new |
| OrderBooks.UpdateExactly | cli/capture/book.py:83-98 | for every readable update: the pruned book is the venue's new window iff each window level is said right, or unsaid and already held right, and all else held ranks behind a full window |
| OrderBooks.RunMirrors | cli/capture/book.py:75-98 | over subscriptions of any length, from any earlier state, both sides equal the venue's window after every message |
| OrderBooks.TopOfWindow | cli/capture/book.py:100-107 | the window has the full book's best n levels iff it is n deep or the book is no deeper than the window |
| OrderBooks.NeverDesynced | cli/capture/book.py:100-112 | at depth ten or more, with the venue's checksums over its full book, every message validates |
| OrderBooks.Phantom | cli/capture/book.py:58-68 | for every venue depth, a book kept deeper goes wrong under three conforming updates |
| DesyncRecoveries.DesyncRecovery.NoteDesync | cli/capture/desync_recovery.py:68-83 | a running ladder is left alone; a fresh one inherits only an escalation still cooling; no other pair changes |
| DesyncRecoveries.DesyncRecovery.NoteRecovered | cli/capture/desync_recovery.py:85-100 | the ladder cleared, an escalation still cooling kept; no other pair changes |
| DesyncRecoveries.DesyncRecovery.NoteAttempt | cli/capture/desync_recovery.py:102-108 | one rung up, for a known pair; no other pair changes |
| DesyncRecoveries.DesyncRecovery.NoteEscalated | cli/capture/desync_recovery.py:110-113 | the escalation recorded; no other pair changes |
| DesyncRecoveries.DesyncRecovery.Due | cli/capture/desync_recovery.py:115-147 | the action due, re-arming a cooled ladder; an empty schedule counted past raises; no other pair changes |
| DesyncRecoveries.DesyncRecovery.Drive | cli/capture/command.py:374-401 | one pair's visit: the ladder advances before the act, and not while disconnected |
| DesyncRecoveries.DesyncRecovery.Sweep | cli/capture/command.py:368-404 | a sweep gives every pair its own visit and touches no other |
| DesyncRecoveries.OncePerCooldown | cli/capture/desync_recovery.py:85-135 | two reconnects for one pair are at least the cooldown apart, through any desyncs, recoveries, disconnections and visits carrying a sweep's older clock |
| DesyncRecoveries.QuietAfterReconnect | cli/capture/desync_recovery.py:121-128 | within the cooldown of a reconnect nothing is done for the pair and the record stays |
| DesyncRecoveries.FreshExactly | cli/capture/desync_recovery.py:68-83 | a desync leaves the record a first desync would iff none was there, or it was that record already, or no ladder runs and no escalation is cooling |
| DesyncRecoveries.LadderBounds | cli/capture/command.py:367-401 | stuck from a fresh ladder, connected and visited at most delta apart: exactly one retry per schedule entry, then one reconnect between grace plus the schedule and that plus one delta per act |

## Left out

- WriterHistories.CrashSafe: every file is readable and every file step succeeds; I/O failures, bit rot, `.corrupt` quarantine and `.tmp` clean-up are not part of this model.
- WriterHistories.KilledKeepsPrefix: a kill is between two file steps; a lost rename after a power failure is excluded by the durable replace.
- WriterLives.ClosedConserves: spills on a stop are written oldest hour first, where the code follows insertion order; the files are the same.
- PlausibilityGuard.SteadyStreamNeverRefused: half the window of jitter is the bound proved; a clock that steps mid-stream is covered only by the bound on refusals.
- Ledger.EveryLossOnce: whole-hour losses, trade records and fleet records that name no stream enter as what they state, not re-derived.
- Reconciling.ReconcileHour: the skip cache, total-loss and trade steps, the darkness verdict and the writing of a minted hour (and its failure) are outside; which pairs are minted on disk, whether the hour is late and the verdict are inputs.
- Reconciling.HealHour: book streams only; a mint that fails to write and the total-loss path are outside.
- Reconciling.DarkHour: the darkness verdict and whether the hour is late are inputs.
- Rolling.PinDeterminesRead: the roll-up from day files to a grid is a parameter; a read hashes the bytes it then reads.
- RollingExtend.RollingSet.Extend: listing the tape, staging temporaries, directory modes and `stage_base` are outside; a missing key of an index line makes it not a line.
- RollingRestart.StopAndRerun: for runs without an owner's close, as the source promises it.
- Replay.VerifyIncremental: replaying a segment's bytes to facts is a parameter, the sampler's draw and the drain's end are inputs, and the audit and result loops are one loop.
- Bootstrap.ContrastTotals: exact arithmetic; percentiles and means over the totals are outside.
- Aggregate.TwoStagesAreOne: exact arithmetic, so the order a float sum takes is outside; the reconstructed `vwap` is not part of the two-stage law, and the cut to a window is one the caller aligns to whole coarse buckets.
- OrderBooks.OrderBook.IngestUpdate: prices and quantities are whole ticks, so equal values have one form; digits and CRC-32 are the recipe parameter.
- DesyncRecoveries.LadderBounds: durations are not negative, which their names imply and the code does not check.
- DesyncRecoveries.DesyncRecovery.Sweep: what the client does after the ladder advances is outside; calls of the message handler between two visits are events of a run, not of a sweep.
- Metrics counters, logging, health pings and `finalize_completed_hours` of the writer.
- `union_trades`, `classify_dark_episode`, `is_total_loss` and the settle schedule: true but easy members.
- Floating-point rounding, statistics, cost tables, transport, configuration and command-line plumbing.
