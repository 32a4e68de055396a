# A model of the tooling around the modem

These files model the parts of `tools/` that other conclusions rest on, and prove what they promise.
`dafny verify dfyconfig.toml` checks everything.

- **The statistics that judge one build against another** (`tools/oracle_report.py`). Times are a
  value with both infinities, a lost transfer being infinitely long. `RankCounts` builds the exact
  Mann-Whitney and signed-rank tables and `RankOrderings` counts, by the size of explicit sets, what
  their entries are. `RankRanges` picks critical ranks and reads ranges; `MannWhitney`, `SignedRank`
  and `Verdicts` prove that range, p-value and verdict agree; `ShiftLaws` what moving or exchanging the runs
  does to them. Probabilities are pairs of counts, so
  nothing is rounded.
- **The lockstep air between stations** (`tools/channel_server.py`). `Stations.Station` and
  `Servers.Server` are the classes, with their own fields; ghost fields record all that was ever
  queued, keyed, heard and sent. The theory is apart, on values: `Messages` (the wire), `Playback`
  and `AirLine` (queue, accounts and latency line), `Keying` (VOX hold, delay, deafness), `Stalls`,
  `Capture` (backlog, gaps, skips), `Collisions` (the account of the overlap, with its class) and
  `Histories` (what a tick makes of the stations' pasts, and the overlap those pasts tell of).
  What the radio paths make of the audio, and every random draw, is an argument: the proofs hold for
  all of them. Samples are 32-bit words, and "heard" is decided on their bits.
- **KISS and AX.25** (`tools/kiss_test_client.py`): `Kiss`, `Ax25` and `Ax25Laws`.
- **Block-by-block signal paths** (`tools/channel_cable.py` and the delay and echo of
  `tools/channel_server.py`): `Cable` and `EchoPath`, over any arithmetic at all, so that equality
  with the whole stream is equality of every operation in its order.
- **Smaller loops**: `SplitMix` (the noise stream), `Calibrate` (the nested bisection), `EchoLimits`
  with `EchoLaws` (the echo limits), and `Runs` with `Recordings` (spans, bursts, holes and releases). `Runs` defines
  once what a "stretch" is; keyed intervals, radiated intervals and collisions are its groups too.

Where the code does less than its description:

- A pile cut with a backlog limit below one sample keeps everything and announces it as lost
  (`Capture.CutConserves`). A run's balance holds exactly when the limit is one or more or no block is
  ever handed over behind a pile (`Capture.RunBalancedExactly`; `Capture.NoLimitLosesBalance` at a
  `backlog_s` of zero).
- A skip taken behind a backlog is announced ahead of it, so a station that reads skips rebuilds that
  backlog late by the skip: at once, or at a later hand-over that itself skips nothing
  (`Capture.LateWithoutSkip`). The totals are exact always. The places are exact exactly when every
  hand-over sends nothing that waited while samples behind it were skipped (`Capture.FaithfulInPlace`
  for one block, `Capture.RunIsFaithful` for any run).
- A receiver is also deaf to the samples of a tick that come before a keying later in that tick
  (`Keying.DeafMeans`; `Keying.DeafAhead` at an input).
- Rounding an echo limit to four decimals can take back the tenth kept below a small reading
  (`EchoLimits.RoundedIsBelow` says for which readings), so that a refusing path need not stay refused
  (`EchoLimits.RefusalLost` at 0.0001; `EchoLimits.StillRefusedExactly` says when it does).
- KISS command 15 on port 15 encodes as the RETURN type byte and comes back as RETURN
  (`Kiss.RoundTripExactly`, `Kiss.LastNibblesReadAsReturn`); a frame with more than nine digipeaters is
  encoded but not described (`Ax25.DescribeOfUi`, `Ax25.TenDigipeaters`).

`Stations` and `Histories` state longer conditions in functions guarded by a key (`Opens`), with a
lemma to open and one to close each: the condition is the formula under the key, and the key is
always in hand. It keeps each proof obligation to the conditions it uses.

## Model

| member | source | states |
|---|---|---|
| `RankCounts.ComputeUCounts` | tools/oracle_report.py:123-135 | the table filled in place, the largest value given to either sample, has entry u `UCount(m, n, u)` for u up to m*n, which `RankOrderings.CountIsOrderings` counts |
| `RankCounts.UCountExchanged` | tools/oracle_report.py:123-135 | exchanging the samples reads the table from the other end |
| `RankCounts.UCountBySmallest` | tools/oracle_report.py:123-135 | the same counts come from giving the smallest value to either sample: the other q-Pascal recursion |
| `RankCounts.UCountSymmetric` | tools/oracle_report.py:123-135 | as many orderings give u as give m*n - u |
| `RankCounts.UCountSwapped` | tools/oracle_report.py:123-135 | the counts do not change when the samples are exchanged |
| `RankCounts.UCountsTotal` | tools/oracle_report.py:138-142 | the table adds up to the binomial coefficient C(m + n, m), never zero |
| `RankOrderings.CountIsOrderings` | tools/oracle_report.py:123-135 | entry u is the number of orderings of m x's and n y's with u pairs in which the x is the larger, for every m, n and u |
| `RankCounts.ComputeSignedRankCounts` | tools/oracle_report.py:183-193 | the loop that adds one rank at a time computes that table |
| `RankCounts.RankCountSymmetric` | tools/oracle_report.py:183-193 | as many sign patterns give t as give n(n + 1)/2 - t |
| `RankCounts.SignedRankCountsTotal` | tools/oracle_report.py:183-193 | the table adds up to 2^n |
| `RankOrderings.CountIsPatterns` | tools/oracle_report.py:183-193 | entry t is the number of sets of ranks 1..n that add up to t |
| `RankRanges.CriticalRank` | tools/oracle_report.py:167-175 | the accumulating loop stops at the last rank whose share stays within the tail and its tolerance, or at -1 |
| `RankRanges.CriticalMeets` | tools/oracle_report.py:167-175 | a rank is at most the critical one exactly when its cumulated share is within the limit |
| `RankRanges.RangeIsOrdered` | tools/oracle_report.py:157-179 | for any symmetric table and a limit below one half, the estimate is defined and lies in the range, given a zero between the infinities |
| `Times.DifferenceSign` | tools/oracle_report.py:150-154 | a difference is negative, zero or positive exactly as x is less than, equal to or greater than y, infinities included: two lost transfers are equal |
| `Times.MedianBetween` | tools/oracle_report.py:165-166 | given a zero between minus and plus infinity, a sorted list's median is defined and lies between any two values equally far from its ends |
| `MannWhitney.UCdf` | tools/oracle_report.py:138-142 | the share of orderings at most u, over all C(m + n, m) of them, a positive total |
| `MannWhitney.HodgesLehmann` | tools/oracle_report.py:157-179 | the method computes the median of the sorted differences and the range at the critical rank, or nothing without differences; how large they are is said by the laws of `ShiftLaws` |
| `MannWhitney.StatisticCountsSigns` | tools/oracle_report.py:145-147 | U is the number of positive differences and half the zero ones |
| `MannWhitney.FasterAgreesWithTest` | tools/oracle_report.py:157-179 | for any runs, a range that ends below zero implies p(faster) within the tail; without ties the two are equivalent |
| `MannWhitney.NoCriticalRankNoVerdict` | tools/oracle_report.py:176-177 | with no critical rank the range is unbounded, and neither the range nor the p-value can say faster |
| `MannWhitney.BuildsExchangePValues` | tools/oracle_report.py:291-294 | exchanging the builds exchanges p(faster) and p(slower) exactly, ties and lost transfers included |
| `MannWhitney.EstimateInRange` | tools/oracle_report.py:157-179 | with runs finite or lost and a tail below one half, the estimate is defined and lies in the range |
| `ShiftLaws.ShiftMoves` | tools/oracle_report.py:157-179 | unless both builds lost a transfer, runs that all take d longer read an estimate and a range exactly d higher |
| `ShiftLaws.LostInBothStay` | tools/oracle_report.py:150-154 | two lost transfers read zero however the finite runs are moved |
| `ShiftLaws.EqualRunsReadTheirDifference` | tools/oracle_report.py:157-179 | runs all at a against runs all at b read a - b, their range that point or unbounded |
| `ShiftLaws.ShiftExchanges` | tools/oracle_report.py:157-179 | exchanging the builds negates the estimate, and negates and exchanges the ends of the range, lost transfers and undefined estimates included |
| `SignedRank.PairedHodgesLehmann` | tools/oracle_report.py:196-213 | the method computes the median of the sorted Walsh averages and the range at the critical rank; how large they are is said by `SignedRank.EqualDifferencesReadThemselves` and the laws of `ShiftLaws` |
| `SignedRank.PositiveWalshIsSignedRank` | tools/oracle_report.py:196-201 | Tukey's identity: without zeros or tied magnitudes, the positive Walsh averages number the signed-rank sum, and none is zero |
| `SignedRank.PairedRangeAgreesWithTest` | tools/oracle_report.py:196-213 | without ties, the range lies above zero exactly when the sum's upper tail is within the tail used, and below exactly when the lower one is |
| `SignedRank.PairedEstimateInRange` | tools/oracle_report.py:196-213 | with a tail below one half the paired estimate is always defined and lies in the range, lost transfers on both sides included |
| `SignedRank.EqualDifferencesReadThemselves` | tools/oracle_report.py:196-213 | pairs that all differ by d read d, for any finite d, and their range is that point or unbounded: a scenario the candidate never acted on reads a ratio of one |
| `ShiftLaws.PairedShiftMoves` | tools/oracle_report.py:196-213 | differences all d larger, with transfers lost on one side at most, read an estimate and a range exactly d higher |
| `ShiftLaws.PairedShiftExchanges` | tools/oracle_report.py:196-213 | the pairs taken the other way negate the estimate, and negate and exchange the ends |
| `Verdicts.LowerRateTakesLonger` | tools/oracle_report.py:216-220 | a run's time is longer than another's exactly when its rate is lower and the other's is positive: lost transfers are all as long |
| `Verdicts.TimesDifferByTheirRatio` | tools/oracle_report.py:216-220 | for any logarithm, two times differ by the logarithm of the ratio of the rates |
| `Verdicts.FasterIsBelowZero` | tools/oracle_report.py:234-239 | "faster" is given exactly when the range ends below zero |
| `Verdicts.NotSlowerIsWithinMargin` | tools/oracle_report.py:234-239 | short of that, "not slower" is given exactly when the range ends within the logarithm of one and the margin, and "may be slower" exactly when it ends beyond |
| `Verdicts.UnpairedVerdict` | tools/oracle_report.py:275-299 | the printed verdict "faster" implies the printed p-value is within half of what the level leaves, to 10^-12, and without ties is equivalent to it |
| `Verdicts.PairedVerdict` | tools/oracle_report.py:242-268 | without ties the paired verdict "faster" is the one-sided signed-rank test at half of what the level leaves |
| `Messages.TakesWhatWasWritten` | tools/channel_server.py:433-465 | reading up to READY takes exactly the messages written before it, and the READY, and leaves what follows, for any messages |
| `Messages.WhatWasTakenWasWritten` | tools/channel_server.py:433-465 | conversely, whatever is taken up to a READY is what the stream said, with that READY its only one |
| `Messages.WrittenAllIsRead` | tools/channel_server.py:436-465 | bytes can have been written as one list of messages only: what reading them takes |
| `Messages.NextOfWritten` | tools/channel_server.py:441-463 | one message read back is the message written |
| `Messages.WrittenOfNext` | tools/channel_server.py:441-463 | a message understood is the front of the stream, counts and payload |
| `Messages.WrittenBytes` | tools/channel_server.py:436-465 | the four kinds byte for byte: 2 with a sample count, 3, 4, and 5 with a byte count, counts little-endian |
| `Bytes.PackedIsLittleEndian` | tools/channel_server.py:442-444 | a word of 32 bits has its lowest byte first |
| `Messages.AnswersExactly` | tools/channel_server.py:715-719 | a stream answers n blocks exactly when it says n READYs before it ends or says something else |
| `Messages.TakesUpToReadys` | tools/channel_server.py:715-719 | what is taken while it does is the stream up to its nth READY and nothing past it |
| `Stations.Station.ReadExact` | tools/channel_server.py:413-431 | the next n bytes of the stream, however the socket splits it; all bytes returned so far are a prefix of what the station writes; None exactly when the station closes first |
| `Stations.Station.TakeMessage` | tools/channel_server.py:436-465 | one turn of the loop consumes one message and has its effect on the playback, and no other; the steps' messages stay exactly what the bytes taken say; the station has left exactly when it is not understood |
| `Stations.Station.UntilReady` | tools/channel_server.py:433-465 | the messages up to the READY have their effects in order; it fails exactly when the stream ends or says something else first |
| `Stations.Station.AwaitReadys` | tools/channel_server.py:717-719 | one READY after another until none is owed, and nothing past the last: exactly the messages of `Messages.UntilReadys`, in order; owed counts down by the READYs taken |
| `Stations.Station.CatchUp` | tools/channel_server.py:715-719 | it takes the stream up to the last READY owed and no further, each message having its effect; it fails exactly when what the station writes does not say as many READYs as the blocks it was sent, and the first; and the playback account still holds |
| `Stations.Station.SaidIsRead` | tools/channel_server.py:413-465 | the bytes taken are the front of what the station writes and read as exactly the messages the playback was told; owed is the blocks sent, and one, less the READYs among them |
| `Playback.ToldKeeps` | tools/channel_server.py:441-463 | PLAY, CLEAR, TAG and READY keep the whole account of the playback |
| `Playback.DrawnIsPlacing` | tools/channel_server.py:544-561 | taking samples for the air keeps it, but for accounts whose samples have just gone |
| `Playback.PlacedAllIsCoherent` | tools/channel_server.py:671-676 | placing those accounts restores it |
| `Playback.PlacedAllMoves` | tools/channel_server.py:673-676 | placing moves accounts from waiting to placed in their order and changes nothing else |
| `Playback.AccountIsOnTime` | tools/channel_server.py:671-676 | a placed account stands at exactly the air sample that carries the first sample queued after its tag; nothing queued later is on the air before it |
| `Playback.TagIsAccountedFor` | tools/channel_server.py:446-463 | every tag ever sent is placed, waits for a sample that has not gone, or was cleared away before its sample went: if that sample had been queued by the CLEAR it never goes on the air |
| `Playback.AirCarries` | tools/channel_server.py:544-561 | an air sample is a queued sample where it carries one, and zero where it is idle |
| `Playback.SilenceIsEarned` | tools/channel_server.py:544-561 | over any run, whatever was queued by the tick of an idle air sample went on the air before that sample, or was cleared |
| `AirLine.RunIsCoherent` | tools/channel_server.py:441-463 | over any interleaving of PLAY, TAG, CLEAR, READY and ticks all of that holds, with queued_total == consumed + queued and the line's length unchanged; every sample gone from the queue is on the air or was cleared, and consumed counts the air samples that carry one |
| `AirLine.TickMovesLine` | tools/channel_server.py:677-680 | a block through the latency line keeps it holding exactly what is to go on the air next, and which of it is the station's own |
| `AirLine.TickPlaysWhatWaits` | tools/channel_server.py:544-561 | a tick of n samples carries the front of the queue in order, n of it or all there is; it is idle only from where the queue ran out |
| `AirLine.OwnKeysMean` | tools/channel_server.py:662-671 | a sample keys the transmitter when it is one played, and under a VOX is heard |
| `Stations.Station.Take` | tools/channel_server.py:544-561 | n samples: the head of the queue in order, then silence; which were the station's own; and all of them were if anything is left in the queue |
| `Stations.Station.PlaceTags` | tools/channel_server.py:673-676 | the loop over waiting accounts places those whose samples have gone, the latency after them |
| `Stations.Station.PlayTick` | tools/channel_server.py:662-680 | a tick of playback: samples and keyed flags leave the line, and the account holds |
| `Stations.Station.JoinAir` | tools/channel_server.py:633-636 | a station joins the air with a line of silence |
| `Stations.Station.QueueSamples` | tools/channel_server.py:441-447 | PLAY appends to the queue and to both counts |
| `Keying.KeyDown` | tools/channel_server.py:685-690 | a keyed sample after the key came up opens an interval: the intervals stay the samples' groups bridged over the hold |
| `Keying.KeyHeld` | tools/channel_server.py:685-690 | a keyed sample while the key is held extends the last interval |
| `Keying.KeyUp` | tools/channel_server.py:693-694 | a sample not keyed leaves the intervals, and ends the hold once it has run |
| `Stations.Station.KeySample` | tools/channel_server.py:683-697 | one air sample: the intervals are the groups of the keyed samples bridged over `vox_hold`, whatever the ticks; on is keyed or held; it radiates once keyed for `tx_delay` |
| `Stations.Station.Key` | tools/channel_server.py:681-697 | the same for a tick of samples |
| `Keying.OnMeans` | tools/channel_server.py:696-697 | the transmitter is on exactly within the hold of a keyed sample |
| `Keying.RadiatesMeans` | tools/channel_server.py:683-692 | a sample radiates exactly when it is keyed and the transmitter has been on without a break since a keyed sample at least the transmit delay before |
| `Keying.LoudMeans` | tools/channel_server.py:699-700 | heard is above 10^-9 either way, by the bits of the float |
| `Keying.IntervalsAreOn` | tools/channel_server.py:685-697 | throughout a reported keyed interval the transmitter is on |
| `Keying.DeafMeans` | tools/channel_server.py:705-709 | a receiver is deaf exactly within the hold and the recovery of a keyed sample, or ahead of a keying later in the same tick |
| `Keying.DeafAhead` | tools/channel_server.py:705-709 | a sample before the only keyed one of a tick is deaf, though nothing keyed reaches it |
| `Stations.Station.Deaf` | tools/channel_server.py:705-709 | the deaf samples of a tick are those |
| `Stations.Station.Radiate` | tools/channel_server.py:662-703 | the audio put out is the line's samples where the station radiates and silence elsewhere; the VOX flags are the samples on but not keyed |
| `Keying.Signal` | tools/channel_server.py:699-701 | a block of 48 samples carries signal throughout exactly when one of them is heard |
| `Stations.Station.NoteRadiated` | tools/channel_server.py:773-784 | the radiated intervals are the runs of radiated blocks, in samples, whatever the ticks |
| `Keying.BlocksStayRight` | tools/channel_server.py:695-703 | over any run the radiated blocks are exactly those in which the station radiated something heard |
| `Stations.Station.Stall` | tools/channel_server.py:467-476 | a stall asked for joins the last stretch or opens one, and the stretches stay exactly what was asked for |
| `Stations.Station.Stalled` | tools/channel_server.py:478-490 | the station stands still at a sample exactly when some stall asked for covers it; its machine asks for one exactly when its next falls due, and waits anew from the stall's end |
| `Stalls.ExtendedKeeps` | tools/channel_server.py:467-476 | the stretches are in order and cover exactly the samples some request covers, lengths below zero included |
| `Stalls.CurrentTells` | tools/channel_server.py:490 | from the clock on, the last stretch alone tells |
| `Stations.Station.Skipped` | tools/channel_server.py:492-511 | a skip is drawn exactly when it falls due, of one sample at least; the block loses what is left to skip, or all of itself; every sample drawn to be skipped has been or is still to be |
| `Capture.HeardKeepsBalance` | tools/channel_server.py:513-542 | given a positive limit, whatever is skipped and however long the stall, every sample heard is delivered, waits, was skipped or was dropped; the gaps and skips told of make up the difference |
| `Capture.CutConserves` | tools/channel_server.py:531-534 | what a cut pile loses and keeps make up the pile exactly when the limit is positive: `pile[-0:]` keeps everything |
| `Capture.BalanceExactly` | tools/channel_server.py:513-542 | a block keeps the balance exactly when the limit is one or more, nothing waits, or it is skipped whole |
| `Capture.RunBalancedExactly` | tools/channel_server.py:467-542 | a run is balanced exactly when the limit is one or more or no block is handed over behind a pile: once lost, the balance never comes back |
| `Capture.NoLimitLosesBalance` | tools/channel_server.py:845 | with a backlog of nothing, one sample waiting and one heard lose it |
| `Capture.LevelWithTheAir` | tools/channel_server.py:513-542 | a station that reads both announcements is level with the air, but for its backlog and the skips not yet told of |
| `Capture.HeardSelects` | tools/channel_server.py:513-542 | what a station is sent, and then what waits, is always a selection of what was heard, in order and without repeats |
| `Capture.HeardIsExact` | tools/channel_server.py:513-542 | what a station that reads gaps and skips rebuilds has each sample in its place on the air, except what a hand-over sends of a backlog that samples were skipped behind |
| `Capture.FaithfulInPlace` | tools/channel_server.py:513-542 | after any run a block is faithful exactly when it is skipped whole, nothing was skipped behind what waits, or the limit cuts away all that waited before the last such skip |
| `Capture.LateSkipMisplaces` | tools/channel_server.py:519-524 | otherwise a sample that waited is handed over late |
| `Capture.LateWithoutSkip` | tools/channel_server.py:513-542 | a block skipped whole behind a backlog makes the next hand-over late, which skips nothing |
| `Capture.LateButCut` | tools/channel_server.py:530-536 | and a limit of at most three puts the rest of such a pile in its place again |
| `Capture.RunIsBalanced` | tools/channel_server.py:467-542 | over any run of stalls and skips nothing is lost but what they cost, and nothing comes twice or out of order |
| `Capture.RunIsExact` | tools/channel_server.py:467-542 | after any run every sample is in its place but the ones in doubt, and what waits is settled as far as nothing was skipped behind it |
| `Capture.RunIsFaithful` | tools/channel_server.py:467-542 | a run rebuilds the air itself exactly when every hand-over puts nothing out of its place (only if the samples are told apart) |
| `Stations.Station.Deliver` | tools/channel_server.py:513-542 | a block is kept while the station stands still; otherwise its capture skips what its draws say and the rest is sent, as the messages of `Capture.SentOf`, each block under the call's clock and the playback clock; once anything is sent a station that reads both announcements has been sent or told of all the air so far, which is then the clock of the last block; owed counts the blocks sent less the READYs, and the first |
| `Stations.Station.HandOver` | tools/channel_server.py:528-542 | the block alone, as one message; or word of what the pile lost and the rest of it; each block under the call's clock and the playback clock, as the messages the station rebuilds it from |
| `Stations.Station.SendPile` | tools/channel_server.py:537-539 | a pile goes out a tick to a block and what is over in the last, all with the same clocks |
| `Stations.Station.CutPile` | tools/channel_server.py:530-536 | the pile's newest is kept, the rest counted as dropped and told of |
| `Capture.TickIsSentInOrder` | tools/channel_server.py:513-542 | of a tick's hand-over, word of skips comes first if there were any, then word of a cut, then the air in whole ticks but for the last block; nothing empty is sent |
| `Collisions.TimeIsConserved` | tools/channel_server.py:744-767 | over any run the time keyed at once is the length of the collisions, the sum of the overlap by kind and the sum of every collision's split; the time radiated at once is the length of its stretches |
| `Collisions.CollisionIsWhole` | tools/channel_server.py:755-762 | each collision is a longest stretch of overlap, and its split counts its samples of each kind, which add up to its length |
| `Collisions.EveryStretchIsNoted` | tools/channel_server.py:753-767 | every longest stretch of overlap is a collision, and every longest one of signal from two a stretch radiated at once; both lists are in order |
| `Collisions.BetweenByKind` | tools/channel_server.py:760-762 | the overlap of any stretch is split by the number of its samples of each kind |
| `Collisions.RadioWithin` | tools/channel_server.py:763-767 | the stretches radiated at once lie within the collisions |
| `Collisions.NotedIsRight` | tools/channel_server.py:753-767 | one more sample of overlap keeps the account right |
| `Collisions.AtLeastTwo` | tools/channel_server.py:744-750 | the samples at which two stations are on at once |
| `Collisions.AnyOf` | tools/channel_server.py:751 | the samples at which any VOX only holds |
| `Collisions.Overlaps.CountTick` | tools/channel_server.py:748-767 | a tick's samples are added to the account, which stays right |
| `Collisions.Overlaps.Note` | tools/channel_server.py:754-767 | one sample of overlap changes the fields as the account says |
| `Servers.Server.constructor` | tools/channel_server.py:580-660 | the server starts with every station on its line of silence and an empty account |
| `Servers.Server.AwaitAll` | tools/channel_server.py:715-719 | every block sent to any station is answered, or a station has left, not having said as many READYs as it was sent blocks, and the first |
| `Servers.Server.AnsweredByReadys` | tools/channel_server.py:715-719 | answered means that each station's stream has said as many READYs as it was sent blocks, and the first |
| `Servers.Server.RadiateAll` | tools/channel_server.py:725-729 | the air is made only when nothing is owed |
| `Servers.Server.FindOverlap` | tools/channel_server.py:744-752 | a sample counts when two transmitters are on at once and there is no outage; it is radiated when two signal at once, else held by a VOX, else guard |
| `Servers.Server.HearAll` | tools/channel_server.py:730-743 | a receiver hears nothing where it is deaf, and what arrives where it is not |
| `Servers.Server.MakeAir` | tools/channel_server.py:720-752 | what each station puts on the air is added to its past, what each hears follows from it, and the overlap counted stays that of the pasts, cut exactly during an outage |
| `Servers.Server.DeliverAll` | tools/channel_server.py:768-770 | every station, in one tick, is handed exactly its own new samples: kept by one that stands still, and otherwise sent, message for message, with what waits, the skips its own draws make taken off and told of, the pile cut, under the clock of the tick's end |
| `Servers.Server.Tick` | tools/channel_server.py:711-771 | a whole tick adds to every station's past just what it put on the air, what it heard, the messages it was sent of that, and the stalls and skips its draws make; the account of the overlap stays that of the pasts, cut exactly during an outage; the tick is made exactly when every station's stream answers all it was sent, and otherwise the air stands |
| `Histories.TickedBySteps` | tools/channel_server.py:711-771 | the steps of a tick over all stations, one after another, make each station's tick |
| `Histories.TickedHears` | tools/channel_server.py:705-709 | of a tick a station hears nothing within the hold and the recovery of a keyed sample or ahead of one later in the tick, and elsewhere what arrives |
| `Histories.OutputShows` | tools/channel_server.py:681-703 | what a tick puts out is, sample for sample, what the past radiates, and silence elsewhere; its flags say when the station is on, when only held, and when it signals |
| `Histories.NextStallIsAfterAll` | tools/channel_server.py:484-489 | a stall that comes is asked for at the clock, and the next waits from the latest that any request reaches |
| `Histories.EventsAreAwaited` | tools/channel_server.py:481-484 | the first stall or skip comes the first wait after it is first asked for, any later one when what was drawn has come, and none without a rate |
| `Histories.SkipsWhatIsOwed` | tools/channel_server.py:495-511 | a block is skipped from its front until it or what is owed runs out, a skip being one sample at least |
| `Histories.OverlapWithTick` | tools/channel_server.py:744-767 | the overlap counted is, at every air sample of any run, that two transmitters were on and the paths not cut; what it was follows from the pasts alone |
| `Servers.Server.OverlapTells` | tools/channel_server.py:744-767 | over any run the account and its totals are those of the stations' pasts: a sample is radiated when two signal at once, else a VOX's hold if any is held, else guard |
| `Servers.Server.HearingTells` | tools/channel_server.py:711-771 | over any run each station has been sent a selection of what it heard, in order, and one that reads both announcements is level with the clock but for what waits and the skips not yet told of; the clock of the last block it was sent is the length of what it can rebuild |
| `Servers.Server.CommandStall` | tools/channel_server.py:1002-1005 | a commanded stall is one more request at the clock, all else of every station's past as it was |
| `Servers.Server.CommandOutage` | tools/channel_server.py:1006-1007 | an outage of so many samples from the clock replaces any before it; `Servers.Server.Tick` says what it cuts |
| `EchoPath.Lines.Process` | tools/channel_server.py:184-190 | a block of any length, even shorter than the delays: all that has come out so far is in[k - D] + g * in[k - D - E] over the whole stream |
| `EchoPath.Lines.ProcessAll` | tools/channel_server.py:184-190 | however a stream is cut into blocks, the lines give the whole stream's arrivals |
| `EchoPath.ArrivalsPrefix` | tools/channel_server.py:184-190 | more of the stream only adds to its arrivals |
| `EchoPath.ArrivalsAt` | tools/channel_server.py:184-190 | arrival k is the input at k less the delay, and with an echo the gain times the input at that less the echo's delay |
| `Cable.FilteredIsConvolution` | tools/channel_cable.py:141-143 | the carried filter state computes the convolution with the taps |
| `Cable.Lfilter` | tools/channel_cable.py:141-143 | one block from any state gives the filter's output and the state after it |
| `Cable.CableChannel.MixDown` | tools/channel_cable.py:136-148 | a block of any length: all the baseband given so far is the whole stream's filtered samples at the multiples of six |
| `Cable.CableChannel.MixUp` | tools/channel_cable.py:150-161 | a block: all the audio given so far is the whole stream's interpolation, sample by sample as `Cable.AudioAt` says; None exactly when the baseband does not fit |
| `Cable.PhaseCongruent` | tools/channel_cable.py:138-140 | the phase counters, kept modulo the rate, read the oscillator where the true index does |
| `Cable.CableChannel.MixDownAll` | tools/channel_cable.py:136-148 | however a stream is cut into blocks, mixing down gives the whole stream's baseband |
| `Cable.BasebandGrows` | tools/channel_cable.py:136-148 | more audio only adds to the baseband, what the whole stream has on the grid beyond it |
| `Cable.GridAt` | tools/channel_cable.py:144-148 | baseband sample i is the filtered sample at 6 * i |
| `Cable.BasebandAt` | tools/channel_cable.py:136-148 | baseband sample i is the convolution of the taps with the audio times the oscillator, at audio sample 6 * i |
| `Cable.TwoTaps` | tools/channel_cable.py:141-143 | a filter of two taps, written out |
| `Cable.CableChannel.MixUpAll` | tools/channel_cable.py:150-161 | however baseband is cut into blocks, mixing up interpolates the whole stream, sample by sample as `Cable.AudioAt` says |
| `Cable.StuffedOnGrid` | tools/channel_cable.py:150-153 | baseband stuffed comes back on the grid of mixing down, and every sample off it is zero |
| `Cable.AudioAt` | tools/channel_cable.py:150-161 | audio sample k is beaten by oscillator sample k mod 32 from the convolution of the taps, each times six, with the baseband at every sixth sample and zeros between |
| `Cable.RaisedGrows` | tools/channel_cable.py:150-161 | more stuffed baseband only adds to the audio |
| `Cable.WholeBlocksFit` | tools/channel_cable.py:136-161 | blocks of a multiple of six give a sixth as many, so mixing back up never fails |
| `Kiss.KissEncode` | tools/kiss_test_client.py:48-60 | the loop computes the frame for the wire |
| `Kiss.EscapedHasNoFend` | tools/kiss_test_client.py:48-60 | no frame's inside holds a FEND |
| `Kiss.EscapedLength` | tools/kiss_test_client.py:48-60 | two bytes for each FEND and FESC, and one for any other |
| `Kiss.EncodedBytes` | tools/kiss_test_client.py:48-60 | a frame with both, byte for byte |
| `Kiss.KissDecoder.Push` | tools/kiss_test_client.py:79-111 | the items and the state after a chunk are those of the stream so far |
| `Kiss.ChunkingIsIrrelevant` | tools/kiss_test_client.py:79-111 | how the stream is cut into chunks does not matter |
| `Kiss.StreamIsDecoded` | tools/kiss_test_client.py:79-111 | any stream, cut at its FENDs: what comes before the first is lost, what comes after the last waits, and each piece between is decoded by itself, a reference decoder undoing its escapes |
| `Kiss.FrameOnTheWire` | tools/kiss_test_client.py:79-111 | from any state an encoded frame comes out last, after whatever its opening FEND completes, and the decoder is then clean |
| `Kiss.RoundTripExactly` | tools/kiss_test_client.py:48-111 | a frame comes back as it went exactly when its command and port survive the type byte |
| `Kiss.LastNibblesReadAsReturn` | tools/kiss_test_client.py:48-111 | command 15 on port 15 comes back as RETURN on port 0 |
| `Kiss.FramesThroughChunks` | tools/kiss_test_client.py:48-111 | any frames, encoded one after another and cut anyhow, come back as those frames exactly when each of them survives encoding |
| `Kiss.RecoversAfterGarbage` | tools/kiss_test_client.py:79-111 | after any garbage the next frame is recovered as the last item |
| `Ax25.Ax25Ui` | tools/kiss_test_client.py:129-137 | the frame is its addresses, control, PID and information, or an error for a callsign that is not one |
| `Ax25.Ax25Describe` | tools/kiss_test_client.py:140-171 | the loop over the addresses computes the description, or none |
| `Ax25.AddressThereAndBack` | tools/kiss_test_client.py:117-126 | an alphanumeric callsign's address read back is the callsign, upper-cased, and its SSID, with the end bit as asked, and the star of a digipeater that has repeated the frame |
| `Ax25Laws.CallsignReads` | tools/kiss_test_client.py:117-123 | letters before a dash and a decimal number after it are a callsign exactly when there are one to six and the number is at most fifteen, the letters in capitals; without a dash the number is zero |
| `Ax25Laws.NoCallsign` | tools/kiss_test_client.py:121-122 | without one to six characters before the first dash there is no callsign, whatever follows |
| `Ax25Laws.AddressBytes` | tools/kiss_test_client.py:117-126 | the seven bytes: six characters with blanks after the base, each doubled; then the end bit, the SSID, both reserved bits set and the command bit |
| `Ax25Laws.StripTakesBlanks` | tools/kiss_test_client.py:149 | stripping takes the blanks off both ends and nothing else |
| `Ax25.EndBitOnLastOnly` | tools/kiss_test_client.py:129-137 | the end-of-addresses bit is on the last address only |
| `Ax25.DescribesFields` | tools/kiss_test_client.py:140-171 | the fields of up to eleven addresses are read as their names in order; of more, nothing is described |
| `Ax25.DescribeOfUi` | tools/kiss_test_client.py:129-171 | for alphanumeric callsigns, describing a UI frame recovers source, destination, path and printable information exactly when there are at most nine digipeaters, and otherwise gives none |
| `Ax25Laws.DescribeOfAny` | tools/kiss_test_client.py:140-171 | the same for any control byte, in hexadecimal: only a UI frame's first byte of information is passed over; a dot stands for a byte that is not printable |
| `Ax25Laws.JoinedFromTheFront` | tools/kiss_test_client.py:168 | the path is the names with commas between |
| `Ax25Laws.DescribedExactly` | tools/kiss_test_client.py:140-166 | any bytes at all are described exactly when they begin with two to eleven readable addresses, the last and no other with its end bit set, and something follows |
| `Ax25.TenDigipeaters` | tools/kiss_test_client.py:129-171 | a frame through ten digipeaters is built, and not described |
| `EchoLimits.ReadRows` | tools/bench_echo.py:269-275 | the rows that count become the table of rates and echoes; none when one has no frames |
| `EchoLaws.NoTableExactly` | tools/bench_echo.py:269-273 | there is no table exactly when a row of the bandwidth, off the probes, has no frames |
| `EchoLaws.RateIsOfLastRow` | tools/bench_echo.py:269-273 | a rung's rate at a place is the share decoded of the last row that speaks of it there, and there is none without one |
| `EchoLaws.EchoIsOfLastRow` | tools/bench_echo.py:274-275 | a place's echo is that of the last row of rung 0 there that has a reading, and there is none without one |
| `EchoLimits.OwnLimitOf` | tools/bench_echo.py:281-302 | a rung's own limit is the lowest refusing reading, given exactly when there is one and it stands the margin above every carrying reading |
| `EchoLaws.ReadingsSides` | tools/bench_echo.py:277-298 | a reading refuses a rung exactly when its path carries rung 0 seven times in ten at some SNR and at every reading of the path some slower rung delivers more; it carries it when at some reading none does |
| `EchoLaws.OwnLimitExactly` | tools/bench_echo.py:297-302 | a rung has a limit of its own exactly when something refuses it and everything that refuses it reads at least five quarters of anything that carries it |
| `EchoLimits.Measure` | tools/bench_echo.py:278-303 | exactly the rungs with an own limit are measured, each nine tenths of it, rounded |
| `EchoLimits.HoldDown` | tools/bench_echo.py:304-315 | each family's rungs get the lowest limit measured at or below them, and the others none |
| `EchoLimits.Limits` | tools/bench_echo.py:248-315 | the whole computation |
| `EchoLimits.CarryingIsClear` | tools/bench_echo.py:299-303 | before rounding the limit is at least 1.125 times every carrying reading |
| `EchoLimits.RoundedIsBelow` | tools/bench_echo.py:303 | the rounded limit is below the reading it came from exactly when that is positive and outside four small ranges where rounding takes the tenth back |
| `EchoLimits.StillRefusedExactly` | tools/bench_echo.py:303-315 | every reading that refuses a rung stays above the limit it ends up with exactly when some limit of its family at or below it rounds to less than the lowest of those readings; the rung need have no limit of its own |
| `EchoLimits.SmallReadingSwallowed` | tools/bench_echo.py:303 | nine tenths of a reading of 0.0001 round back to it |
| `EchoLimits.RefusalLost` | tools/bench_echo.py:278-315 | at that reading a rung's limit is the reading that refuses it |
| `EchoLimits.HeldToSlower` | tools/bench_echo.py:305-315 | a rung is held to any limit of its family at or below it |
| `EchoLimits.NeverRises` | tools/bench_echo.py:305-315 | a family's limits never rise with the rung, and once there is one every later rung has one |
| `EchoLimits.SlowestHasNoLimit` | tools/bench_echo.py:279-315 | rung 0 never gets a limit |
| `SplitMix.MixIsBijective` | tools/make_phy_vectors.py:671-674 | the finaliser is a bijection on 64-bit words |
| `SplitMix.XorShiftIsXor` | tools/make_phy_vectors.py:672-674 | the xor-shift is the exclusive-or of the word with itself shifted down |
| `SplitMix.EveryStateIsVisited` | tools/make_phy_vectors.py:669 | every state is reached from every seed |
| `SplitMix.StatesAreDistinct` | tools/make_phy_vectors.py:669 | no state repeats within 2^64 steps |
| `SplitMix.MixedWordsAreDistinct` | tools/make_phy_vectors.py:669-674 | the first 2^64 mixed words are pairwise distinct |
| `SplitMix.Draw` | tools/make_phy_vectors.py:675 | every draw is at least -1 and below 1 |
| `SplitMix.DrawIsScaledDown` | tools/make_phy_vectors.py:675 | a draw is the word scaled to [-1, 1), brought down to the next multiple of 2^-52 |
| `SplitMix.Draws` | tools/make_phy_vectors.py:666-675 | the loop fills the draws of the stream in order |
| `SplitMix.PseudoNoise` | tools/make_phy_vectors.py:663-676 | real parts are the even draws and imaginary parts the odd ones |
| `Calibrate.Crossing` | tools/calibrate_fading.py:70-79 | the loop's result is the bisection's, between -10 and 45 dB of the AWGN threshold |
| `Calibrate.CrossingIsClose` | tools/calibrate_fading.py:70-79 | bracketed and non-increasing, the crossing is within 55 * 2^-41 dB of the 10 % point |
| `Calibrate.CrossingSeparates` | tools/calibrate_fading.py:70-79 | for a bracketed, non-increasing curve the rate is above 10 % from 55 * 2^-41 dB below the crossing on down, and at most 10 % from as much above it on up |
| `Calibrate.CrossingMonotone` | tools/calibrate_fading.py:70-79 | a curve nowhere below another crosses nowhere below it |
| `Calibrate.CalibrateBeta` | tools/calibrate_fading.py:82-97 | the search's result; its exponent, crossing and clamping are what `Calibrate.FitIsItsOwn` and `Calibrate.ClampedOrBracketed` say |
| `Calibrate.ClampedOrBracketed` | tools/calibrate_fading.py:82-97 | clamped exactly when the target is outside the reachable crossings; otherwise a sign change stays bracketed to 6 * 2^-30 decades around the exponent |
| `Calibrate.FitIsItsOwn` | tools/calibrate_fading.py:82-97 | in every case the fit's crossing is that of its own exponent, between -3 and 3; a target at or above the crossing at 10^-3 is fitted there, and otherwise one at or below the crossing at 10^3 there |
| `Calibrate.ClampedIsNearest` | tools/calibrate_fading.py:86-89 | where a larger beta makes errors rarer, no exponent of the search comes nearer to a clamped target |
| `Calibrate.FitIsClose` | tools/calibrate_fading.py:82-97 | for crossings that fall as beta grows, the bracket's crossings enclose those of every exponent in it, and an exponent whose crossing is the target's lies in it or shares its upper end's crossing |
| `Runs.GroupIsGrouping` | tools/floor_trace.py:77-88 | the groups read left to right begin and end on true positions, cover them all, are bridged inside and apart outside |
| `Runs.GroupingIsUnique` | tools/floor_trace.py:77-88 | no other list has these properties |
| `Runs.GroupsAreMaximalRuns` | tools/floor_trace.py:77-88 | unbridged, they are exactly the maximal runs |
| `Runs.LengthIsCount` | tools/floor_trace.py:77-88 | and their lengths add up to the true positions |
| `Recordings.Spans` | tools/floor_trace.py:77-88 | the loop gives the list of maximal true runs |
| `Recordings.FindBursts` | tools/tx_envelope.py:131-152 | the nested loops end, and give the bridged groups of loud steps that last long enough |
| `Recordings.BurstsAreApart` | tools/tx_envelope.py:131-152 | bursts are in order, begin and end on loud steps, at most the bridge apart inside and more than it across |
| `Recordings.BurstsAccountForLoudSteps` | tools/tx_envelope.py:131-152 | every loud step is in a burst or in a group dropped as too short |
| `Recordings.Holes` | tools/tx_envelope.py:173-183 | the holes are the quiet runs inside a burst that last long enough |
| `Recordings.HolesAreStretches` | tools/tx_envelope.py:173-183 | the holes are, in order, the offsets and lengths of exactly the longest low stretches of 20 ms or more that neither begin nor end the burst |
| `Recordings.MilliIsNearest` | tools/tx_envelope.py:182 | they are rounded to the nearest millisecond |
| `Recordings.DetectReleases` | tools/turnaround_plot.py:83-95 | the loop gives the times of the releases |
| `Recordings.ReleasesAreOfStretches` | tools/turnaround_plot.py:83-95 | the releases are, in order, the times of the ends of exactly the longest silent stretches of 0.2 s or more that something follows |
| `Recordings.ReleasesEndSilence` | tools/turnaround_plot.py:83-95 | a release is exactly a step that is not silent and ends a long enough silent run |

## Left out

- The link engine, rate controller, forward error correction, receivers and frame formats, and the
  Rust core: not part of this model.
- Sockets, files, processes, plotting, report text and command-line parsing: a socket is the pieces
  it will give, and the air ends when a station closes it. The watchdog and the outages' list are left out.
- Fading, noise, interference, sample-rate offset, level schedules and the AGC: what arrives at a
  receiver is an argument of a tick.
- Floating-point rounding: reals are exact in the statistics, the calibration and the echo limits, and
  the filters are exact in any arithmetic; a signal's loudness threshold and the 64-bit words are
  exact. The reports' rounding to three decimals and their division by the sample rate are left out,
  so intervals and accounts are in samples.
- The split of deaf time by reason (`_note_deaf_hits`): its millisecond blocks let a sample count under
  two reasons.
- A tag's JSON: an account is the bytes sent, so text that is no JSON object is not told apart.
- Callsigns beyond ASCII: upper-casing and the alphanumeric test are those of ASCII.
- Stations.Station.Take: builds its block as a sequence rather than by filling a zeroed array.
- Collisions.Overlaps.CountTick: the server's overlap fields are grouped in a class of their own.
- The regret and floor reports, median rates, percentages, ratios' text, bench grids, sidecars, the
  hold-down by exchange worth (`family_limits`) and the scenario's parsing: read off one branch each.
