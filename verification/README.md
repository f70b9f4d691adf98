# The SRTP ingest control plane, verified

Encrypted video arrives at a fleet of instances. Each port of each instance is run by a
supervisor (TypeScript) and a helper process (Python) that authenticates packets with
libsrtp. What the project models is what decides whether a packet is taken and who may
write to the port's Kinesis stream:

- the helper's 48-bit packet index, its replay floor, its search for the sender's rollover
  counter, and the two threads that credit an authenticated packet to a candidate key;
- the shared row, with a lease lock and a floor fenced by reset epoch, key generation and
  index, written by any number of instances and by a cleanup job;
- the supervisor's nine states, its lock flag and its helper sessions;
- helper and supervisor together, across a fleet that shares one row;
- the line protocol between the two, the test sender's Annex B and RTP packetization, and
  the byte counts from helper to published metric.

## How it is built

Objects that the source updates in place are classes. Each method is proved equal to a
function of the old state (`PortSpec`, `SupervisorSpec`, `StreamRow`, `TrafficMetrics`) and
keeps the class's `Valid()`; those functions are the steps of state machines, and the
theorems are about every run of them (`Runs.Run`). `HelperThreads.Work` and
`PortQueue.Serve` drive the two central objects through any sequence of turns or events and
prove that they are the machines the theorems speak of. A class whose methods touch a remote
row or ask another service takes the answers as parameters: a write may land, may land
without its answer, or may not land.

libsrtp is an oracle: under a key seeded with a rollover counter, a packet authenticates
exactly when the estimate from the highest index authenticated so far is the packet's true
index. A key is its identity: SSRC, fingerprint and generation. Clocks are integers in
milliseconds and one reading serves a whole step. The helper's streaming thread and main loop
interleave at the locks: wherever a pipeline is up, the main loop's sections are separate
steps, and once it has been torn down the rest of the callback is one.

| files | what they hold |
|---|---|
| `PacketIndex`, `Tracking` | the index estimate; the tracker against the oracle |
| `Cyclic`, `RolloverSearch`, `RolloverCoverage`, `CarriedSearch`, `SupervisedSearch` | the search, its closed form, what it reaches, and how it is carried on, helper after helper |
| `HandOuts` | the counters that reach the authenticator, hand-out by hand-out |
| `HelperFrames`, `PortSpec`, `PortLaws`, `HelperPort` | the helper: on values, what its state keeps, as objects |
| `HelperRuns`, `HelperSessions`, `SessionOverlap`, `HelperThreads` | the helper in runs: crediting, and sessions at the indexes it computes |
| `HelperDuties` | what a helper says and when: loss, confirmation, rollovers, reports, the last word |
| `OracleRuns`, `OracleReplays` | helper and authenticator side by side: what is taken at the packets' own indexes |
| `StreamRow`, `RowLaws`, `StreamMetadata` | the row's conditional writes, exactly when each lands, and the service and cleanup that make them |
| `FloorHistory`, `SessionFence`, `Restarts`, `Lease` | the floor and the lease over every run |
| `SupervisorSpec`, `PortSupervisor`, `SupervisorRuns`, `PortQueue` | the supervisor: on values, as an object, in runs |
| `SupervisorDuties`, `SupervisorPromises` | which events do each thing it does, and what can be relied on over its runs |
| `Fleet`, `FleetPromises`, `EndToEnd` | supervisors, helpers and the row together: safety, its converse, and the floor from packet to next helper |
| `LineProtocol`, `AnnexB`, `SliceHeaders`, `RtpPayloads`, `Sender` | framing, parsing, packetizing, sending |
| `TrafficMetrics`, `ByteCounting`, `Publishing`, `SupervisedCounts`, `SupervisedReports` | conservation of received bytes, and what of a helper's reports is counted |

## What the proofs say about the code

Some properties one might expect do not hold without a condition. Each has an input on which it
fails and its exact condition, for all inputs.

- **A reset under traffic.** At the indexes the helper computes, everything accepted after a
  session ended lies above everything accepted before - unconditionally when the pipeline was
  torn down first, that is for a start, a stop, a pipeline failure and a loss while producing
  (`HelperSessions.RebuiltSessionsLieAbove`). A searching helper that loses authentication resets
  its session with the pipeline up: `_reset_session` reads the maximum under the lock, writes the
  floor without it, and only later takes it again to forget the key
  (`backend/src/srtp_port.py:868-882`, called from 990-995). There it holds if and only if no
  packet above the maximum read is accepted before the reset's last section
  (`SessionOverlap.SearchingLossSeparatesIffQuiet`); otherwise a run is constructed that goes
  below. `SessionOverlap.AcceptedInsideTheReset` is a concrete one: 100 is read, 105 accepted
  during the reset, 103 after it.
- **A tracker that lost its place.** The same loss makes the tracker forget its sequence number
  while the authenticator goes on from its own. From then on indexes are computed right on
  exactly the streams that an authenticator newly seeded with the helper's counter would accept
  throughout (`Tracking.LossExactIffAuthenticates`). A first packet ahead of all before, on the
  same counter, is enough (`Tracking.LossHeals`). A wrap in the silence
  (`Tracking.SilentWrapIsMistracked`), or a first packet that is merely a little late
  (`Tracking.LateFirstPacketIsMistracked`), leaves the helper a rollover too low; a late packet of
  the counter before, a rollover too high (`OracleReplays.EarlyPacketIsTaken`).
- **Replays, at the packets' own indexes.** So a quiet reset is not the whole story. Too high
  means that a packet below the floor is taken: in `OracleReplays.EarlyPacketIsTaken` it lies
  below the floor the helper was started with, and what the helper reports is a rollover too high
  from then on. The packet that finds a lost place keeps the floor true, for every
  continuation, if and only if its counter is not earlier than the one kept
  (`OracleReplays.LossKeepsFloorIffNotEarly`). Too low means that a packet is taken and recorded
  below its own index, and can be taken again (`OracleReplays.TooLowIsTakenAgain`): once a session
  has ended, exactly the packets whose own index lies above the floor can be
  (`OracleReplays.TakenAgainIffAboveFloor`). With neither, a packet once taken is never taken again,
  in a later session or by a later helper (`OracleRuns.TrueIndexNeverTakenAgain`,
  `OracleRuns.TrueIndexNeverTakenByAnother`).
- **Credit after a searching loss.** A session on a new pipeline keeps the key that the first
  accepted packet proved (`HelperRuns.AcceptedKeyIsKept`). A session begun by a searching loss does
  so if and only if a key was handed out in it before that packet; otherwise the next hand-out
  discards the credit (`HelperRuns.KeptIffHandedOut`).
- **A hand-out in the middle of a searching loss.** What a session hands out before anything is
  accepted is its search, call for call (`HandOuts.HandsOutItsSearch`), from the floor's counter or
  the counter a start was seeded with. A searching loss puts its search in place before it forgets
  the key, and a request in between, finding credit, makes the old key the candidate again. The
  session begins on the floor's counter if and only if no other was handed out in between
  (`HandOuts.LossBeginsIffNoneTorn`); in `HandOuts.TornLossBeginsOnOldKey` one was, and the floor's
  counter waits until the search comes round to it.
- **A report that comes too late.** A stats frame from a replaced helper is dropped. The bytes
  published, under way and pending are what every helper reported last if and only if no
  replaced helper reports more than was counted of it
  (`SupervisedReports.EverythingIsCountedIffNoneLate`); in `SupervisedReports.LateReportIsDropped`
  50 of 150 bytes are never counted.
- **Crossing frames.** An `auth lost` written before `start` is read, and handled after it
  was sent, makes the supervisor release the lock under a helper that is producing by then
  (`Fleet.CrossedAuthLossReleasesTheLock`). The instance is safe afterwards if and only if no
  `start` was on its way when the report was written
  (`Fleet.ReportSafeIffNoStartInFlight`). The fleet therefore handles `stopped` and `auth lost`
  as they are written; every other frame may come at any time, from any session, with any
  content.

Four more limits are exact as well. Once a newer key has reported, a helper started for the
older one reads no floor, unless the two keys share SSRC and fingerprint
(`FloorHistory.NewerKeyHidesTheFloor`). The index estimate departs from Appendix A of
RFC 3711 in one case only, a first-counter session that jumps ahead by more than half the
sequence space (`PacketIndex.EstimateAgreesWithRfc`). The test sender makes one fragment with
both marks, against section 5.8 of RFC 6184, from a NAL one byte over 1200 and from no other
(`RtpPayloads.StartsAndEndsIffOneByteOver`). And its parser gives a NAL back from any framing
exactly if that is not empty, does not end in a zero and has no start code inside
(`AnnexB.CarriedIffCarriable`).

## Model

| member | source | states |
|---|---|---|
| `PacketIndex.EstimateIsExact` | backend/src/srtp_port.py:183-216 | the 48-bit index is recovered from 16 bits if and only if it lies in a named window round the highest one |
| `PacketIndex.EstimateRoundTrip` | backend/src/srtp_port.py:183-216 | any index less than 2^15 away survives the trip through its sequence number |
| `PacketIndex.EstimateAgreesWithRfc` | backend/src/srtp_port.py:183-216 | equal to Appendix A of RFC 3711 (section 3.3.1) if and only if the early-session rule does not apply, and what the RFC says where it does |
| `PacketIndex.EstimateNeverWrapsBackward` | backend/src/srtp_port.py:200-216 | the estimate is an index with the packet's sequence number, and its counter is one of three, never below 0 |
| `PacketIndex.EstimateIsMonotone` | backend/src/srtp_port.py:183-216 | of two receivers the one behind never estimates the higher index, short of the end of the index space |
| `PacketIndex.IndexParts` | backend/src/srtp_port.py:606-616 | counter and sequence number are taken back out of an index unchanged |
| `Tracking.TrackOne` | backend/src/srtp_port.py:584-631 | one authenticated packet: its index is exact and the tracker holds the running maximum |
| `Tracking.TrackerExact` | backend/src/srtp_port.py:584-640 | over any run after a hand-out every index is exact, the tracker encodes the maximum, the floor stands still, and what is accepted is exactly what lies above it |
| `Tracking.ExactIffAuthenticates` | backend/src/srtp_port.py:584-631 | after a hand-out, every index of a stream is computed right if and only if the oracle accepts the whole stream |
| `Tracking.WithinHalfAuthenticates` | backend/src/srtp_port.py:183-216 | a stream reordered by less than half the sequence space, starting on the seeded counter, authenticates throughout |
| `Tracking.ExactWithinHalf` | backend/src/srtp_port.py:584-640 | tracker exactness for every such stream, with no other assumption |
| `Tracking.ArrivalOrderIrrelevant` | backend/src/srtp_port.py:632-640 | two arrival orders of the same packets are accepted alike |
| `Tracking.LossExactIffAuthenticates` | backend/src/srtp_port.py:990-995 | after a searching loss, every index of a stream is computed right if and only if an oracle newly seeded with the helper's counter accepts the whole stream |
| `Tracking.FoundAtCounter` | backend/src/srtp_port.py:606-631 | a lost place is found on the counter kept: right, too low or too high as the packet's own counter is that, a later or an earlier one |
| `Tracking.LossHeals` | backend/src/srtp_port.py:990-995 | if the first packet after the loss is ahead of all before and on the counter kept, whatever libsrtp goes on to accept is tracked exactly |
| `Tracking.SilentWrapIsMistracked` | backend/src/srtp_port.py:990-995 | a stream that wraps in the silence is computed a rollover too low, and its packet refused |
| `Tracking.LateFirstPacketIsMistracked` | backend/src/srtp_port.py:990-995 | a slightly late first packet on the same counter leaves the next one a rollover too low |
| `RolloverSearch.Search.constructor` | backend/src/srtp_port.py:138-149 | a new search clamps its base and refuses a position outside it |
| `RolloverSearch.Search.Next` | backend/src/srtp_port.py:154-180 | one call of the search is one step of its specification: new state and candidate |
| `RolloverSearch.StateAtStep` | backend/src/srtp_port.py:154-180 | one call, wherever in a round, moves to the next place of the closed form and yields what that says |
| `RolloverSearch.ClosedForm` | backend/src/srtp_port.py:154-180 | state and candidate of every call, without running the search |
| `RolloverCoverage.CandidatesAboveFloor` | backend/src/srtp_port.py:105-112 | for any arguments, every candidate is a counter from the floor's up |
| `RolloverCoverage.ResweptInEveryWindow` | backend/src/srtp_port.py:114-117 | any `floor_every` + 17 consecutive calls offer the floor's counter and each of the sixteen above it |
| `RolloverCoverage.ClimbForYields` | backend/src/srtp_port.py:165-180 | the climb that reaches a given counter, by number |
| `RolloverCoverage.CallMakesClimb` | backend/src/srtp_port.py:157-166 | the call that makes a given climb, by number |
| `RolloverCoverage.EveryCounterOffered` | backend/src/srtp_port.py:119-131 | every counter from the floor's up is offered, at a call named in closed form and within an explicit bound |
| `RolloverCoverage.ClimbsDoNotRepeat` | backend/src/srtp_port.py:119-123 | until the far climb wraps no two climbs yield the same counter |
| `RolloverCoverage.StartIsFresh` | backend/src/srtp_port.py:138-149 | a new search has something to climb exactly unless the floor's counter is the last of all |
| `RolloverCoverage.FarAfter` | backend/src/srtp_port.py:173-177 | the position handed on is how far round the circle the climb has got |
| `RolloverCoverage.FarClimbUnbroken` | backend/src/srtp_port.py:119-131 | the far climbs of successive sessions are one unbroken cyclic climb |
| `RolloverCoverage.ShortSessionsReachEveryCounter` | backend/src/srtp_port.py:119-131 | sessions of eighteen calls or more together offer every counter |
| `CarriedSearch.SessionsResumeTheClimb` | backend/src/srtp_port.py:853-882 | in every run a new search on the same counter starts its far climb where the one before stopped |
| `CarriedSearch.SearchMakesCalls` | backend/src/srtp_port.py:1084-1086 | in every run the search is the one it started as, called once for every candidate switched |
| `CarriedSearch.NextProcessIsNextSession` | backend/src/srtp_port.py:384-393 | handed the position the process before it kept, a process makes exactly the next session's search of the unbroken chain |
| `CarriedSearch.RespawnResumesTheClimb` | backend/src/SrtpPortSupervisor.ts:308-340 | in every supervisor run the position last reported reaches the next helper spawned, however many events later, exactly when its floor's counter is unchanged |
| `SupervisedSearch.LifeHandsOn` | backend/src/SrtpPortSupervisor.ts:308-340 | in every supervisor run the next helper on a floor of the same counter is handed the position the one before kept when it was done |
| `SupervisedSearch.ChainIsSessions` | backend/src/SrtpPortSupervisor.ts:308-340 | so the searches of successive helpers are the sessions of one unbroken climb |
| `SupervisedSearch.SupervisedSearchesReachEveryCounter` | backend/src/srtp_port.py:119-131 | under one supervisor, helpers of at least eighteen calls each on floors of one counter together make every counter from there up their candidate |
| `SupervisedSearch.SupervisedHelpersReachEveryCounter` | backend/src/srtp_port.py:657-692 | and, if a key is asked for at every trial and nothing is accepted, hand every one of them to an authenticator |
| `HandOuts.RebuildsBegin` | backend/src/srtp_port.py:853-882 | a process, and every session on a pipeline just built, begins with nothing credited and the first of its floor counter's search on trial, or the seed |
| `HandOuts.HandsOutItsSearch` | backend/src/srtp_port.py:657-692 | in any interleaving, as long as nothing was accepted in a session, the key handed out is what its search yielded last, call for call, or before the first call the candidate it began on |
| `HandOuts.OwnKeyOnly` | backend/src/srtp_port.py:650-657 | a key is handed out exactly for the port's own SSRC; another's datagram changes a count and nothing else |
| `HandOuts.HandOutsAreNumbered` | backend/src/srtp_port.py:677-678 | each hand-out is announced by its counter and its number over the process's life |
| `HandOuts.StartIsSeeded` | backend/src/srtp_port.py:805-812 | a start read while confirmed begins its session on the counter the tracker stood on, one read while not on the search's first |
| `HandOuts.LossBeginsIffNoneTorn` | backend/src/srtp_port.py:872-882 | the session a searching loss begins starts on its search's first counter if and only if no other was handed out between the search's restart and the key's being forgotten |
| `HandOuts.TornLossBeginsOnOldKey` | backend/src/srtp_port.py:872-882 | the input on which it does not: the old key's counter is handed out again instead of the floor's |
| `HelperPort.Counters.Observe` | backend/src/srtp_port.py:610-631 | the tracking half of an authenticated packet equals its specification |
| `HelperPort.Counters.Accept` | backend/src/srtp_port.py:635-640 | an accepted packet is counted, credited to the key, and raises the maximum |
| `HelperPort.SrtpPort.constructor` | backend/src/srtp_port.py:365-412 | the port after its init frame: floor checked, first candidate chosen |
| `HelperPort.SrtpPort.RecordAuthenticated` | backend/src/srtp_port.py:584-640 | whole new state and verdict of an authenticated packet |
| `HelperPort.SrtpPort.OnRequestKey` | backend/src/srtp_port.py:649-692 | whole new state, key and trial frame of a key request |
| `HelperPort.SrtpPort.ResetSession` | backend/src/srtp_port.py:853-882 | whole new state of a session reset, seeded or not |
| `HelperPort.SrtpPort.TickLook` | backend/src/srtp_port.py:948-963 | the locked read that opens a tick |
| `HelperPort.SrtpPort.MoveFloor` | backend/src/srtp_port.py:868-871 | the second section of a reset: the floor rises to the maximum read, if that is higher |
| `HelperPort.SrtpPort.RestartSearch` | backend/src/srtp_port.py:872-875 | the third: a fresh search from the floor's counter and its first candidate, or the seed |
| `HelperPort.SrtpPort.GiveUp` | backend/src/srtp_port.py:990-1002 | authentication loss: production down before anything is reported |
| `HelperPort.SrtpPort.Confirm` | backend/src/srtp_port.py:1008-1028 | the first confirmation, a counter change, the index report |
| `HelperPort.SrtpPort.AdvanceSearchIfTried` | backend/src/srtp_port.py:1061-1107 | no switch without evidence, nor after a packet authenticated; else the next candidate |
| `HelperPort.SrtpPort.ReportIndex` | backend/src/srtp_port.py:1031-1045 | when an index report is due and what is remembered of it |
| `HelperPort.SrtpPort.CmdStart` | backend/src/srtp_port.py:798-814 | a start, and when it does nothing |
| `HelperPort.SrtpPort.CmdStop` | backend/src/srtp_port.py:816-835 | a stop, answered at once while searching |
| `HelperPort.SrtpPort.FinishStop` | backend/src/srtp_port.py:837-845 | the end of a flush |
| `HelperPort.SrtpPort.OnPipelineError` | backend/src/srtp_port.py:728-745 | recovery in place while producing, the end of the helper while searching |
| `HelperPort.SrtpPort.Tick` | backend/src/srtp_port.py:945-1029 | a whole tick, every branch |
| `PortLaws.StartedIsSane` | backend/src/srtp_port.py:365-412 | a helper starts on the floor it was sent, if that is an index, and searches from its counter |
| `PortLaws.AcceptedCoversKey` | backend/src/srtp_port.py:610-640 | an accepted packet leaves the maximum no rollover below the tracker |
| `PortLaws.RecordKeepsSane` | backend/src/srtp_port.py:584-640 | a packet keeps: floor sent or earned, tracker at an index at or below the floor or the highest accepted, nothing reported that was not accepted |
| `PortLaws.ResetKeepsSane` | backend/src/srtp_port.py:853-882 | a reset keeps the same, searches from the new floor's counter, and resumes the far climb |
| `PortLaws.SwitchKeepsSane` | backend/src/srtp_port.py:1084-1086 | a switch of candidate keeps the same, on the same base |
| `HelperThreads.HelperProcess.Turn` | backend/src/srtp_port.py:584-1107 | any turn of either thread is the step of the run, with its event, and keeps the invariant |
| `HelperThreads.Work` | backend/src/srtp_port.py:584-1107 | the objects through any sequence of turns are the helper of that run |
| `HelperRuns.TickIsItsSteps` | backend/src/srtp_port.py:945-1029 | a tick nothing interrupts is the run of its sections, a searching loss's four among them |
| `HelperRuns.StartIsItsSteps` | backend/src/srtp_port.py:798-814 | a start is its seed, read with the pipeline up, and the rebuild |
| `HelperRuns.RebuildsStartFresh` | backend/src/srtp_port.py:853-882 | every session but a searching loss's begins with no key and no credit; that one with the old key in use and nothing known of it |
| `HelperRuns.CreditStep` | backend/src/srtp_port.py:649-690 | through every step of either thread credit stands for the key that was handed out and is never lost, nor the search stepped on, while it lasts |
| `HelperRuns.AcceptedKeyIsKept` | backend/src/srtp_port.py:1061-1090 | in every interleaving, after an acceptance under c, until the session is lost or ends, every key, acceptance and confirmation is c and the search stands still |
| `HelperRuns.TornHandOut` | backend/src/srtp_port.py:655-674 | a hand-out that a reset's unlocked candidate write falls into gives the floor's counter: the credited key if and only if that is its counter; the reset's end undoes the rest |
| `HelperRuns.KeptIffHandedOut` | backend/src/srtp_port.py:868-882 | in a session begun by a searching loss the first accepted packet is credited, and its key kept, if and only if a key was handed out before it; otherwise the next hand-out discards the credit |
| `HelperRuns.ConfirmationIsEarned` | backend/src/srtp_port.py:1008-1024 | a confirmation is never sent before an acceptance, and names its key |
| `HelperDuties.TickWritesItsSections` | backend/src/srtp_port.py:945-1029 | what an uninterrupted tick writes is what its sections write, in order |
| `HelperDuties.StartWritesItsSections` | backend/src/srtp_port.py:798-814 | and what a start writes: that production has begun, exactly when it has |
| `HelperDuties.GivenUpIffOverdue` | backend/src/srtp_port.py:966-1002 | in every run a tick gives the sender up if and only if the last packet accepted before it looked is longer ago than the limit and the session is confirmed or produces |
| `HelperDuties.AcceptedIsConfirmed` | backend/src/srtp_port.py:1008-1024 | a packet accepted under a key is that key's confirmation at the next tick that looks and does not give up, with the tracker's counter and sequence number |
| `HelperDuties.TickStepsIffTried` | backend/src/srtp_port.py:1004-1087 | a tick steps the search if and only if the candidate was tried, the session is neither confirmed nor lost, and nothing had authenticated at either look |
| `HelperDuties.SteppedIffTried` | backend/src/srtp_port.py:1061-1107 | what counts as tried, what a step changes and reports, and that an idle port keeps its candidate |
| `HelperDuties.RolloverIsTold` | backend/src/srtp_port.py:625-631 | a rollover in a confirmed session is told of at the next tick that looks and does not give up |
| `HelperDuties.ToldOfARollover` | backend/src/srtp_port.py:1025-1026 | and is told of only after a rollover no look had seen |
| `HelperDuties.ReportedOnceASecond` | backend/src/srtp_port.py:1031-1045 | a confirmed tick reports the highest index exactly when it is news and the last report a second old; after it that index is reported, or a report was made within the second |
| `HelperDuties.ReportsRiseAndAreSpaced` | backend/src/srtp_port.py:1038-1045 | in every run successive reports rise and are a second apart |
| `HelperDuties.ReportedOnTheWayOut` | backend/src/srtp_port.py:932-943 | a helper that a pipeline error ends reports what it has not yet, whenever the last report was |
| `HelperDuties.AuthenticatedIsTheCount` | backend/src/srtp_port.py:635-636 | the running total is the number of packets accepted, over all sessions |
| `HelperDuties.RefusalsAreTheCounts` | backend/src/srtp_port.py:632-634 | and what is refused is counted by kind: at or below the floor, or another SSRC's |
| `HelperDuties.CreditIsTheCount` | backend/src/srtp_port.py:635-637 | a key's credit is the number of packets accepted since it was handed out |
| `HelperDuties.StoppedCarriesTheMaximum` | backend/src/srtp_port.py:816-845 | in every run a `stopped` carries the highest index ever accepted, or none if nothing was |
| `HelperDuties.StopIsAnswered` | backend/src/srtp_port.py:816-845 | a stop is answered by one `stopped`: at once while searching, when the flush ends while producing |
| `HelperDuties.SignalEndsTheWork` | backend/src/srtp_port.py:760-770 | from a signal on no search is stepped, nothing confirmed or given up, no production started |
| `HelperDuties.EndOfProductionIsSaid` | backend/src/srtp_port.py:728-745 | production ends exactly where a `stopped` says so, and before any `auth lost` |
| `HelperSessions.TearDownSeals` | backend/src/srtp_port.py:853-882 | a session that ends with its pipeline down has everything accepted at or below the floor, and only a searching loss ends otherwise |
| `HelperSessions.LaterSessionsLieAbove` | backend/src/srtp_port.py:853-882 | once a session has ended with everything accepted at or below the floor, whatever is accepted is computed strictly above whatever was |
| `HelperSessions.RebuiltSessionsLieAbove` | backend/src/srtp_port.py:728-882 | so it is, unconditionally, across every start, stop, pipeline failure and producing loss |
| `HelperSessions.SealedIffQuiet` | backend/src/srtp_port.py:868-882 | a searching loss ends so if and only if nothing above the maximum read was accepted during its reset |
| `HelperSessions.SaneStep` | backend/src/srtp_port.py:584-1107 | every turn of either thread, between any two sections, keeps the invariant |
| `SessionOverlap.HighestWasAccepted` | backend/src/srtp_port.py:638-639 | the maximum held is one that was accepted |
| `SessionOverlap.UnsealedIsUndercut` | backend/src/srtp_port.py:868-882 | otherwise there is a run that accepts a packet computed at or below one already accepted |
| `SessionOverlap.SearchingLossSeparatesIffQuiet` | backend/src/srtp_port.py:868-882 | over all continuations, a searching loss separates its sessions, at the indexes computed, if and only if its reset was quiet |
| `SessionOverlap.AcceptedInsideTheReset` | backend/src/srtp_port.py:868-882 | a concrete run: 105 accepted during the reset, 103 after it |
| `HelperSessions.AcceptanceWithinSession` | backend/src/srtp_port.py:632-640 | within a session acceptance depends on the computed index and the session's starting floor alone |
| `OracleRuns.PacketInStep` | backend/src/srtp_port.py:610-631 | helper and authenticator side by side: a packet passed on is computed at its true index and moves both alike |
| `OracleRuns.InStepStays` | backend/src/srtp_port.py:584-1107 | every move keeps them in step, if a lost place is found by a packet ahead on the same counter |
| `OracleRuns.NotAheadStays` | backend/src/srtp_port.py:606-631 | the tracker never gets ahead of the authenticator but by an earlier counter's packet at a lost place |
| `OracleRuns.NotBehindStays` | backend/src/srtp_port.py:606-631 | nor behind it but by a packet there that is late or of a later counter |
| `OracleRuns.TakenLiesAboveFloor` | backend/src/srtp_port.py:632-640 | while it is not ahead, whatever is taken lies above the floor at its own index |
| `OracleRuns.TrueIndexNeverTakenAgain` | backend/src/srtp_port.py:853-882 | a packet taken, or any with a lower true index, is not taken again after its session was sealed, if no lost place was found too low before it, nor by an earlier counter's packet |
| `OracleRuns.TrueIndexNeverTakenByAnother` | backend/src/SrtpPortSupervisor.ts:713-733 | nor by any helper later given the floor of the same key, generation and epoch, once a covering report was answered, whoever shares the row |
| `OracleReplays.FindsSafelyIffNotEarly` | backend/src/srtp_port.py:606-616 | the packet that finds a lost place keeps the floor true of the packets' own indexes, over every continuation, if and only if its counter is not earlier than the one kept |
| `OracleReplays.LossKeepsFloorIffNotEarly` | backend/src/srtp_port.py:868-882 | the same in every run, after any searching loss whose session was sealed |
| `OracleReplays.TakenAgainIffAboveFloor` | backend/src/srtp_port.py:632-640 | after a session's end exactly the packets whose own index lies above the floor can be taken |
| `OracleReplays.LossSeparatesTrulyIffSealed` | backend/src/srtp_port.py:868-882 | while every lost place is found ahead on the counter kept, a searching loss separates its sessions packet by packet if and only if its session was sealed |
| `OracleReplays.EarlyPacketIsTaken` | backend/src/srtp_port.py:606-616 | a concrete run: a packet below the starting floor is taken after a quiet reset, and the maximum and the next packet are a rollover too high |
| `OracleReplays.TooLowIsTakenAgain` | backend/src/srtp_port.py:606-616 | a concrete run: a packet is taken a rollover below its own index, and can be taken again |
| `StreamMetadata.StreamMetadataService.TryAcquireKinesisLock` | backend/src/StreamMetadataService.ts:135-181 | row and answer of an acquisition, however its write fares |
| `StreamMetadata.StreamMetadataService.ReleaseKinesisLock` | backend/src/StreamMetadataService.ts:186-224 | row and answer of a release |
| `StreamMetadata.StreamMetadataService.UpdateLastPacketTime` | backend/src/StreamMetadataService.ts:289-336 | a throttled refresh writes nothing; any other answers for the row and sets the throttle |
| `StreamMetadata.StreamMetadataService.GetSrtpIndexFloor` | backend/src/StreamMetadataService.ts:347-371 | the floor read for a key, absent for any other key |
| `StreamMetadata.StreamMetadataService.GetSrtpFloorEpoch` | backend/src/StreamMetadataService.ts:377-390 | the epoch read |
| `StreamMetadata.StreamMetadataService.ResetSrtpIndexFloor` | backend/src/StreamMetadataService.ts:409-450 | row and answer of a reset |
| `StreamMetadata.StreamMetadataService.RaiseSrtpIndexFloor` | backend/src/StreamMetadataService.ts:472-516 | row after a raise; refusals and failures are not reported |
| `StreamMetadata.CleanInactive` | lambda/stream-inactivity-cleanup/index.ts:14-88 | the rows after a sweep over an earlier scan, and the two counts returned |
| `StreamMetadata.SweepSparesFreshLeases` | lambda/stream-inactivity-cleanup/index.ts:51-72 | a sweep changes no row whose lease is not stale, and gives none a new owner |
| `StreamMetadata.SweepFreesListed` | lambda/stream-inactivity-cleanup/index.ts:51-72 | a sweep frees every row of its scan that is still active and stale, and leaves it to be acquired by anyone |
| `StreamMetadata.SweepCountsFreed` | lambda/stream-inactivity-cleanup/index.ts:74-88 | and its count of cleaned rows is how many it freed |
| `RowLaws.GrantedUnlessHeld` | backend/src/StreamMetadataService.ts:150-165 | for every row, a lock is granted if and only if no other instance's lease stands, and what the row is then |
| `RowLaws.GrantStands` | backend/src/StreamMetadataService.ts:150-165 | after a grant another instance is granted the lock exactly once it is more than five minutes old |
| `RowLaws.RenewedByOwnerOnly` | backend/src/StreamMetadataService.ts:302-322 | a refresh lands for the owner alone, and makes the lease stand again from then on |
| `RowLaws.ReleasedByOwnerOnly` | backend/src/StreamMetadataService.ts:190-210 | a release lands for the owner alone, and then anybody is granted the lock |
| `RowLaws.CleanedIfStale` | lambda/stream-inactivity-cleanup/index.ts:51-72 | a cleanup write frees exactly the active row older than its threshold |
| `RowLaws.LeaseAndFloorApart` | backend/src/StreamMetadataService.ts:135-516 | lease writes leave the floor, floor writes the lease |
| `RowLaws.RaisedIffAhead` | backend/src/StreamMetadataService.ts:472-498 | a raise lands if and only if it is under the row's epoch and ahead of it by generation or index, or the row has no floor |
| `RowLaws.ResetIffNewer` | backend/src/StreamMetadataService.ts:409-440 | a reset lands if and only if it is newer than the last and its key is no older than the row's |
| `RowLaws.ReadAsWritten` | backend/src/StreamMetadataService.ts:355-371 | a floor is read back as written, by its own key and no other |
| `RowLaws.EpochAsSet` | backend/src/StreamMetadataService.ts:377-390 | an epoch is read as it was set if it is a safe integer; nothing is read where nothing was set |
| `RowLaws.FirstReportIsTheFloor` | backend/src/StreamMetadataService.ts:489-498 | the first report of a newer key is its floor from then on |
| `FloorHistory.EveryFloorWriteRaises` | backend/src/StreamMetadataService.ts:435-498 | a floor write that lands raises (epoch, generation, index) strictly, any other write leaves the floor alone, and generation never falls |
| `FloorHistory.FloorsOnlyRise` | backend/src/StreamMetadataService.ts:452-470 | the same between any two moments of any run |
| `FloorHistory.ResetLandsOnce` | backend/src/StreamMetadataService.ts:401-406 | of two resets that land the later has the larger timestamp |
| `FloorHistory.StaleRaiseChangesNothing` | backend/src/StreamMetadataService.ts:455-468 | a raise from an older key, or of an index already passed, changes nothing |
| `FloorHistory.FloorIsTheMaximum` | backend/src/StreamMetadataService.ts:489-498 | within one generation and epoch the floor is the maximum of its start and the raises made under that epoch |
| `FloorHistory.ResetStartsStretch` | backend/src/StreamMetadataService.ts:409-516 | from a reset that lands on, the floor is the maximum of its value and the raises made under its epoch for its key |
| `FloorHistory.IdentityIsFixed` | backend/src/StreamMetadataService.ts:489-498 | a floor's SSRC and fingerprint change only with its epoch or generation |
| `FloorHistory.CompletedReportHolds` | backend/src/StreamMetadataService.ts:472-516 | an answered report bounds from below every floor read later under its key, generation and epoch |
| `FloorHistory.NewerKeyHidesTheFloor` | backend/src/StreamMetadataService.ts:361-370 | after a newer key's raise the older key reads no floor, exactly unless they share SSRC and fingerprint |
| `SessionFence.CurrentEpochMeansCurrentFloor` | backend/src/SrtpPortSupervisor.ts:296-307 | a session whose epoch is the row's holds a floor read under that epoch and not above the row's |
| `SessionFence.OutdatedSessionIsMute` | backend/src/StreamMetadataService.ts:483-488 | a session overtaken by a reset never changes the row again |
| `SessionFence.SinceTheReport` | backend/src/StreamMetadataService.ts:472-516 | among any sessions, the row a floor is read from is the one a report made with what was written since, and the report's epoch was not ahead of the row's |
| `Restarts.NothingBelowStartingFloor` | backend/src/srtp_port.py:632-640 | no run of a helper accepts anything computed at or below the floor it was started with |
| `Restarts.AcceptedNeverAgain` | backend/src/SrtpPortSupervisor.ts:713-733 | among any sessions that share the row, an index accepted and then covered by an answered report is never again computed and accepted by a helper that later reads its floor under the same key, generation and epoch |
| `Restarts.ReportsAreTheMaximum` | backend/src/srtp_port.py:1031-1045 | in every run an index reported was accepted, and nothing accepted lies above it |
| `Lease.GroundedStep` | backend/src/StreamMetadataService.ts:135-336 | every move of anybody keeps: a believer whose last lease write is fresh owns the row with that stamp |
| `Lease.LeaseExcludes` | backend/src/StreamMetadataService.ts:135-181 | in every run a fresh believer owns the row, nobody else's acquisition nor the cleanup succeeds, and no one else is a fresh believer |
| `Lease.ThrottledRefreshIsTrue` | backend/src/StreamMetadataService.ts:289-300 | a refresh skipped by the throttle and answered `ok` is true of the row |
| `Lease.StaleBelieverLoses` | backend/src/StreamMetadataService.ts:150-165 | another instance takes the row if and only if the believer's lease is stale |
| `Lease.GrantedIffNoneStands` | backend/src/StreamMetadataService.ts:135-181 | in every run an acquisition that is answered is granted if and only if nobody else's lease stands |
| `Lease.FreeRowIsGranted` | backend/src/StreamMetadataService.ts:150-165 | on a row nobody has owned, or that was freed, the next answered acquisition, whoever makes it, is granted and makes its maker the owner |
| `Lease.ReleasedIsGranted` | backend/src/StreamMetadataService.ts:186-224 | so after the owner's release lands |
| `Lease.RefreshesAreSpaced` | backend/src/StreamMetadataService.ts:289-300 | refreshes that reach the row are at least the throttle apart |
| `Lease.RefreshTellsTheTruth` | backend/src/StreamMetadataService.ts:302-336 | an answered refresh says `ok` if and only if the instance owns the row, and then the lease is renewed |
| `PortSupervisor.SrtpPortSupervisor.constructor` | backend/src/SrtpPortSupervisor.ts:173-207 | a new supervisor |
| `PortSupervisor.SrtpPortSupervisor.Start` | backend/src/SrtpPortSupervisor.ts:239-253 | supervision starts once |
| `PortSupervisor.SrtpPortSupervisor.SpawnSession` | backend/src/SrtpPortSupervisor.ts:290-419 | whole new state and effects of a spawn, and of each way it fails |
| `PortSupervisor.SrtpPortSupervisor.HandleFrame` | backend/src/SrtpPortSupervisor.ts:436-608 | whole new state and effects of any frame, from the current session or a replaced one |
| `PortSupervisor.SrtpPortSupervisor.AttemptAcquire` | backend/src/SrtpPortSupervisor.ts:610-646 | the lock is asked for, and `start` is written only when it was granted |
| `PortSupervisor.SrtpPortSupervisor.NotProducing` | backend/src/SrtpPortSupervisor.ts:657-664 | the lock goes, and the port searches again |
| `PortSupervisor.SrtpPortSupervisor.RefreshLease` | backend/src/SrtpPortSupervisor.ts:666-693 | a lost lease stops production and will not be released |
| `PortSupervisor.SrtpPortSupervisor.OnStopped` | backend/src/SrtpPortSupervisor.ts:519-545 | a `stopped` frame ends production and releases the lock unless it was lost |
| `PortSupervisor.SrtpPortSupervisor.ReleaseLock` | backend/src/SrtpPortSupervisor.ts:695-711 | a release is asked for exactly when the lock is held |
| `PortSupervisor.SrtpPortSupervisor.HandleFloorReset` | backend/src/SrtpPortSupervisor.ts:752-789 | a helper under another epoch is replaced, and its carried position dropped |
| `PortSupervisor.SrtpPortSupervisor.HandleExit` | backend/src/SrtpPortSupervisor.ts:791-807 | the current helper's exit releases the lock and cools down or disables |
| `PortSupervisor.SrtpPortSupervisor.HandleError` | backend/src/SrtpPortSupervisor.ts:405-416 | an `error` ends the child before it counts as gone |
| `PortSupervisor.SrtpPortSupervisor.EndSession` | backend/src/SrtpPortSupervisor.ts:816-825 | the helper is ended before the lock is released |
| `PortSupervisor.SrtpPortSupervisor.HandleTick` | backend/src/SrtpPortSupervisor.ts:827-889 | every state's timeout |
| `PortSupervisor.SrtpPortSupervisor.Shutdown` | backend/src/SrtpPortSupervisor.ts:891-920 | flush, end, release, terminate, in that order |
| `SupervisorRuns.HandlingIsLawful` | backend/src/SrtpPortSupervisor.ts:436-920 | what every handler keeps: lock flag against state, helper identity, who is spawned, ended, asked and released |
| `SupervisorRuns.SoundStep` | backend/src/SrtpPortSupervisor.ts:436-920 | one queued event keeps the invariant; spawns into an empty port; giving up is final |
| `SupervisorRuns.LockHeldExactlyWhileProducing` | backend/src/SrtpPortSupervisor.ts:610-711 | after every event of every run the lock is held exactly while producing or stopping, with a current helper, and no other process runs |
| `SupervisorRuns.SpawnsIntoAnEmptyPort` | backend/src/SrtpPortSupervisor.ts:290-419 | at every spawn of every run all earlier helpers have exited |
| `SupervisorRuns.GivingUpIsFinal` | backend/src/SrtpPortSupervisor.ts:286-288 | terminated is absorbing and disabled leads only to terminated |
| `SupervisorRuns.ReleasedOnlyWithoutAProducer` | backend/src/SrtpPortSupervisor.ts:695-711 | the lock is let go only on the helper's own report or with no earlier process left |
| `SupervisorRuns.EpochIsFixed` | backend/src/SrtpPortSupervisor.ts:713-733 | in every run a session's raises carry the epoch it was started under, whatever is spawned or reset since |
| `SupervisorDuties.WordIsPassedOn` | backend/src/SrtpPortSupervisor.ts:554-556 | for every event, exactly the words on the floor are raised, once, as given and under the giving session's epoch |
| `SupervisorDuties.EndedExactly` | backend/src/SrtpPortSupervisor.ts:816-889 | who is ended by which events: each state's time limit, a reset floor, a wrong version, an error, a shutdown |
| `SupervisorDuties.SpawnedExactly` | backend/src/SrtpPortSupervisor.ts:290-360 | a helper is spawned on every occasion on which everything needed can be had, on the floor just read and with the position kept for its counter |
| `SupervisorDuties.AskedExactly` | backend/src/SrtpPortSupervisor.ts:610-711 | which events ask for the lock, renew it, let it go, and write `start` or `stop` to the helper, and that no others do |
| `SupervisorDuties.LockAfter` | backend/src/SrtpPortSupervisor.ts:610-711 | the lock is held after an event if and only if it was granted, or was held and not let go |
| `SupervisorDuties.EventFollows` | backend/src/SrtpPortSupervisor.ts:277-288 | for every event, the next state and every clock, by what happened and not by handler |
| `SupervisorDuties.EventRemembers` | backend/src/SrtpPortSupervisor.ts:290-360 | and the helper, its epoch, its counter and the position kept |
| `SupervisorDuties.EffectsInOrder` | backend/src/SrtpPortSupervisor.ts:891-920 | effects come in one order: lease, command, last word, helper ended, lock released, next helper spawned |
| `SupervisorPromises.GrantStartsHelper` | backend/src/SrtpPortSupervisor.ts:626-646 | in every run `start` is written to the current helper by exactly the events that take the lock |
| `SupervisorPromises.AuthenticatedIsProduced` | backend/src/SrtpPortSupervisor.ts:486-495 | a first authentication with a lock to be had makes the port produce |
| `SupervisorPromises.RefusedAsksAgain` | backend/src/SrtpPortSupervisor.ts:567-574 | a refused lock is asked for again exactly when the interval is over |
| `SupervisorPromises.LostLeaseStopsHelper` | backend/src/SrtpPortSupervisor.ts:666-693 | a lost lease stops the helper, and the lock is kept until it has stopped |
| `SupervisorPromises.LostLeaseIsNotReleased` | backend/src/SrtpPortSupervisor.ts:522-545 | and is then not released, whatever was heard in between |
| `SupervisorPromises.LockIsReleased` | backend/src/SrtpPortSupervisor.ts:695-711 | every other lock let go is released |
| `SupervisorPromises.RespawnsWhenDue` | backend/src/SrtpPortSupervisor.ts:809-848 | after a failure the next helper is spawned at the first tick at or after the end of the wait, and not before |
| `SupervisorPromises.SilenceIsEnded` | backend/src/SrtpPortSupervisor.ts:857-889 | a helper that has spoken is ended for silence at a tick exactly when the limit has passed |
| `SupervisorPromises.FatalDecides` | backend/src/SrtpPortSupervisor.ts:797-806 | the last fatal reason decides whether a port is disabled or tried again |
| `SupervisorPromises.ReportIsRaised` | backend/src/SrtpPortSupervisor.ts:713-733 | from its spawn until supervision ends, every index a session reports is raised once, under the epoch read before its floor |
| `SupervisorPromises.LastWordIsRaised` | backend/src/SrtpPortSupervisor.ts:900-913 | and so is the last word of a stop or a shutdown |
| `SupervisorPromises.ResetReplacesHelper` | backend/src/SrtpPortSupervisor.ts:740-789 | a check of the floor ends the helper if and only if the row's epoch can be read and is not the one it was spawned under, and another is spawned at once with no position carried |
| `EndToEnd.ReportReachesTheRow` | backend/src/SrtpPortSupervisor.ts:713-733 | a report handled by the supervisor is a raise on the row by the session that was spawned |
| `EndToEnd.StartedOnFloorRead` | backend/src/SrtpPortSupervisor.ts:290-360 | a spawned helper starts on the floor its supervisor read |
| `EndToEnd.NeverAcceptedAgain` | backend/src/SrtpPortSupervisor.ts:713-733 | packet, report, supervisor, row, next supervisor, next helper: a packet accepted and reported is accepted by no later helper of the same key, generation and epoch, nor anything below it |
| `PortQueue.Handled` | backend/src/SrtpPortSupervisor.ts:265-269 | one queued event of the object is the step of the run, and keeps `Valid()` |
| `PortQueue.Serve` | backend/src/SrtpPortSupervisor.ts:265-269 | the object through any number of events is the supervisor of the run, with the lock held exactly while producing or stopping |
| `Fleet.HandledIsSafe` | backend/src/SrtpPortSupervisor.ts:436-711 | one event of one instance keeps: its helper produces only under its lock, and it believes what it holds |
| `Fleet.AtMostOneProducer` | backend/src/SrtpPortSupervisor.ts:610-711 | in every run of every fleet a producing instance with a fresh lease owns the row, and no two with fresh leases produce |
| `Fleet.CrossedAuthLossReleasesTheLock` | backend/src/SrtpPortSupervisor.ts:511-518 | from every acquiring state, a crossed `auth lost` leaves a producer without the lock |
| `Fleet.ReportSafeIffTrue` | backend/src/SrtpPortSupervisor.ts:657-664 | a not-producing report may be handled if and only if the helper is not producing then |
| `Fleet.ReportSafeIffNoStartInFlight` | backend/src/SrtpPortSupervisor.ts:511-518 | a report written while searching is handled safely if and only if no `start` was on its way to the helper |
| `FleetPromises.GrantMakesProducer` | backend/src/SrtpPortSupervisor.ts:626-646 | the event that takes the lock leaves a searching helper, if it is free to, producing |
| `FleetPromises.HeldLockIsUsed` | backend/src/SrtpPortSupervisor.ts:610-711 | in every run of every fleet a lock that is held is used: the helper that runs produces, or is stopping or shutting down |
| `FleetPromises.LostLeaseEndsProduction` | backend/src/SrtpPortSupervisor.ts:666-693 | a producer whose lease is lost is stopping at once, and when its flush ends neither produces nor holds the lock |
| `LineProtocol.SrtpHelperProtocol.TakeLines` | backend/src/SrtpHelperProtocol.ts:340-361 | every complete line is taken out of the buffer in order, and what is left has none |
| `LineProtocol.SrtpHelperProtocol.Push` | backend/src/SrtpHelperProtocol.ts:336-369 | messages and remaining buffer of a chunk in terms of its lines; the buffer stays within the bound |
| `LineProtocol.PushSays` | backend/src/SrtpHelperProtocol.ts:336-369 | what a chunk makes the parser say is what the whole text gains in complete lines |
| `LineProtocol.ChunkingDoesNotMatter` | backend/src/SrtpHelperProtocol.ts:326-331 | for every text and every way of cutting it, what is parsed is each complete line that is neither blank nor over-long, in order |
| `LineProtocol.ParsedLinesAreBounded` | backend/src/SrtpHelperProtocol.ts:352-360 | nothing parsed is blank or over the bound |
| `LineProtocol.TrimIsTheMiddle` | backend/src/SrtpHelperProtocol.ts:359-360 | what is handed on of a line is its middle: only spaces are cut off, and none is left at either end |
| `LineProtocol.MiddleIsUnique` | backend/src/SrtpHelperProtocol.ts:359-360 | and no other piece of the line is such a middle |
| `LineProtocol.SpacesAre` | backend/src/SrtpHelperProtocol.ts:359-360 | the characters that count as spaces, one by one, for the white space and line terminators ECMAScript's `trim` strips |
| `LineProtocol.MessagesAreTheMiddles` | backend/src/SrtpHelperProtocol.ts:352-360 | the messages are, in order, the middles of the lines that are neither blank nor too long |
| `LineProtocol.LinesAreTheText` | backend/src/SrtpHelperProtocol.ts:340-345 | lines are what the text says: joined by newlines they are it again, and no other lines are |
| `LineProtocol.ReportedIffLong` | backend/src/SrtpHelperProtocol.ts:352-368 | an over-long line is reported if and only if the text has one, however it is cut |
| `AnnexB.ParseAnnexB` | backend/e2e/sender.ts:54-109 | NALs and access-unit starts of any bytes |
| `AnnexB.FindStarts` | backend/e2e/sender.ts:58-66 | where NALs begin |
| `AnnexB.FindEnd` | backend/e2e/sender.ts:67-82 | where a NAL ends, padding trimmed |
| `AnnexB.FindUnits` | backend/e2e/sender.ts:87-107 | where access units begin |
| `AnnexB.FramingRoundTrip` | backend/e2e/sender.ts:54-86 | NALs framed with any mix of start codes are parsed back exactly |
| `AnnexB.CarriedIffCarriable` | backend/e2e/sender.ts:54-86 | a NAL and the next come back from every framing if and only if it is not empty, does not end in a zero and has no start code inside |
| `AnnexB.UnitStartsMark` | backend/e2e/sender.ts:87-104 | a NAL is marked exactly when it is a parameter set or the first slice of its frame |
| `AnnexB.UnitsAreOrdered` | backend/e2e/sender.ts:87-107 | access-unit starts increase strictly from 0, and are the first slices and parameter sets |
| `AnnexB.UnitsCoverTheStream` | backend/e2e/sender.ts:87-107 | the access units partition the NALs |
| `SliceHeaders.StartsUnitIffFirstOfFrame` | backend/e2e/sender.ts:87-103 | a NAL starts an access unit if and only if it is a parameter set, or a slice whose `first_mb_in_slice`, decoded as Exp-Golomb (Rec. ITU-T H.264, section 9.1), is 0 |
| `RtpPayloads.RtpPayloadsForNal` | backend/e2e/sender.ts:115-139 | the payloads of a NAL: one, or its FU-A fragments |
| `RtpPayloads.HeaderBits` | backend/e2e/sender.ts:121-135 | FU indicator and header determine the NAL header and the start and end marks |
| `RtpPayloads.NalRoundTrip` | backend/e2e/sender.ts:115-139 | sections 5.6 and 5.8 of RFC 6184 put every NAL of type 1 to 23 back together byte for byte |
| `RtpPayloads.StreamRoundTrip` | backend/e2e/sender.ts:115-139 | and every sequence of such NALs |
| `RtpPayloads.PiecesFit` | backend/e2e/sender.ts:115-139 | no payload exceeds 1202 bytes and exactly the last is marked so |
| `RtpPayloads.StartsAndEndsIffOneByteOver` | backend/e2e/sender.ts:115-139 | a fragment that both starts and ends its NAL, which section 5.8 of RFC 6184 forbids, is made if and only if the NAL has 1201 bytes |
| `Sender.E2eSender.constructor` | backend/e2e/sender.ts:167-214 | a sender over a parsed stream, at a given index |
| `Sender.E2eSender.Advance` | backend/e2e/sender.ts:314-315 | one packet is one step of the 48-bit index, over every wrap |
| `Sender.E2eSender.SendPieces` | backend/e2e/sender.ts:286-316 | a NAL's packets: consecutive indexes, marker on the access unit's last |
| `Sender.E2eSender.SendNals` | backend/e2e/sender.ts:286-317 | a range of NALs becomes one run of consecutive packets, the very last marked |
| `Sender.E2eSender.SendAccessUnit` | backend/e2e/sender.ts:269-317 | the packets of the access unit whose turn it is, and the index after them |
| `Sender.AccessUnitArrives` | backend/e2e/sender.ts:269-317 | an access unit's packets are consecutive, bounded, marked once, and reassemble to its NALs |
| `Sender.PacketOfPiece` | backend/e2e/sender.ts:286-316 | the i-th packet carries the i-th piece at the i-th index after the start, and only the last may be marked |
| `Sender.SenderIsConsecutive` | backend/e2e/sender.ts:314-315 | until the index space ends the sender's indexes count up by one |
| `Sender.StreamIsFollowed` | backend/e2e/sender.ts:314-315 | a helper given a sender's counter follows its stream packet for packet through every rollover |
| `TrafficMetrics.TrafficMetrics.constructor` | backend/src/TrafficMetrics.ts:53-75 | both transports start at zero, not serving |
| `TrafficMetrics.TrafficMetrics.RecordReceived` | backend/src/TrafficMetrics.ts:95-97 | received bytes are added to their transport |
| `TrafficMetrics.TrafficMetrics.BeginPublish` | backend/src/TrafficMetrics.ts:130-141 | the snapshot in insertion order, the cleared counters, and nothing at all without a client |
| `TrafficMetrics.TrafficMetrics.CompletePublish` | backend/src/TrafficMetrics.ts:142-163 | a success is counted, a failure puts every sample back |
| `TrafficMetrics.SnapshotOf` | backend/src/TrafficMetrics.ts:133-140 | a snapshot holds exactly what was pending, transport by transport |
| `TrafficMetrics.BeginMovesBytes` | backend/src/TrafficMetrics.ts:121-141 | beginning a publish neither loses nor doubles a byte |
| `TrafficMetrics.CompleteMovesBytes` | backend/src/TrafficMetrics.ts:126-163 | a failed request gives back all it took, a successful one takes exactly that |
| `Publishing.RequestSaysWhatServes` | backend/src/TrafficMetrics.ts:130-141 | in every run a request is made exactly when one is due, and says of each transport what is unsent and whether the last word was that it serves |
| `Publishing.EveryPublishHasItsTurn` | backend/src/TrafficMetrics.ts:104-113 | every publish asked for has its turn once or is waiting for it |
| `ByteCounting.ByteMeter.OnStats` | backend/src/SrtpTransport.ts:372-380 | the baseline and the metric after a stats frame |
| `ByteCounting.StepAccounts` | backend/src/SrtpTransport.ts:361-381 | published, in flight and pending together change only by what arrives |
| `ByteCounting.EveryRequestReportsBoth` | backend/src/TrafficMetrics.ts:29-32 | every request that gets through reports on both transports, and is counted |
| `ByteCounting.EveryByteIsAccountedFor` | backend/src/SrtpTransport.ts:361-381 | over every run of reports, respawns, publishes and failures the bytes are the sum of each helper's last report, plus the counts taken back |
| `ByteCounting.ConservedIffCountersRise` | backend/src/SrtpTransport.ts:372-380 | and are exactly that sum if and only if no helper's count ever falls |
| `SupervisedCounts.TraceRises` | backend/src/SrtpTransport.ts:361-381 | in every supervisor run no counted report is below the one before it, since only the current helper's are counted and a process's only grow |
| `SupervisedCounts.SupervisedBytesAreConserved` | backend/src/SrtpTransport.ts:361-381 | for any number of supervisors and any interleaving, published, in-flight and pending bytes are the sum of the last report counted of every helper |
| `SupervisedReports.EverythingIsCountedIffNoneLate` | backend/src/SrtpPortSupervisor.ts:436-460 | and of the last report each helper made, counted or not, if and only if no replaced helper reports more than was counted of it |
| `SupervisedReports.CountedIffNoneLate` | backend/src/SrtpPortSupervisor.ts:436-460 | the same for one helper |
| `SupervisedReports.LateReportIsDropped` | backend/src/SrtpPortSupervisor.ts:436-461 | a concrete run: of 150 bytes reported, the 50 of a buffered last frame are never counted |

## Left out

- GStreamer, libsrtp, sockets, GLib, cryptography, credentials and child spawning: foreign code. Authentication is the oracle above, and `endChildProcess` returns only once the child has exited.
- Crossing frames: the fleet is composed with `stopped` and `auth lost` delivered as they are written; see the crossing above.
- The end of the index space: `TrueIndexNeverTakenAgain` and its kin suppose that neither side counts past index 2^48 - 1, where SRTP requires a new key.
- A key hand-out that a searching reset's unlocked candidate write falls into is not a step of the runs; what comes of one is `HelperRuns.TornHandOut`.
- Push: the bound on a line counts characters, where the source counts UTF-16 units, two for a character outside the basic plane.
- Duplicates within a session: libsrtp's replay window rejects them, and the helper does not.
- Raw stdout of replaced helpers: all listeners feed the current parser, so frames are modelled as parsed and tagged with their session.
- `parseMessage`: the meaning of a line is a function of the line, so a message is the trimmed line it was parsed from.
- Trial counters: the input and drop counts since a trial began are parameters of `AdvanceSearchIfTried`, because GStreamer's drop count is one of them.
- The index in a requested stop's `stopped` frame: the source reads it before the pipeline is torn down, so it may miss the last packets; they reach the row with the next report.
- One clock reading serves a whole step, where the source reads the clock again inside it.
- `lastHeartbeatAuthenticated` of the supervisor is written and never read, so it is not modelled.
- SupervisedHelpersReachEveryCounter: supposes that a datagram asks for a key at every trial, which is up to the sender and to srtpdec.
- FloorIsTheMaximum: the stretch ends when a newer key's raise or a reset lands, because from then on the row describes another index space.
- AcceptedNeverAgain: the report must have been answered, because a failed write leaves a window that the source accepts.
- StreamIsFollowed: stops at the end of the 48-bit index space, where SRTP requires a new key.
- SendAccessUnit: does not model `stop()` in the middle of an access unit, forged tags or frame pacing.
- E2eSender: does not model the refusal of a stream with fewer than ten access units.
- TrafficMetrics: the timer, the log and the sample's timestamp are not modelled; a publish is queued, begins and is answered in separate steps.
- `updateStreamStatus` and `createStreamMetadata`: not called by the service entry point.
- `updatedAt` and `createdAt`: written and never a condition.
- A cleanup write that fails for another reason than its condition: the handler throws and the sweep ends there; each row's own write is unaffected.
- The reorder buffer, event plumbing, floor-reset HTTP server, metric naming, UDP listener, key store, CDK, scripts and end-to-end cases: configuration, I/O or single-branch logic that would add only easy members.
