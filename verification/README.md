# nine-core, as a model

nine-core reads events from a log, writes each one to a table partitioned by week, and
forwards what it cannot write along a chain of delay topics. Three parts of it carry
its promises, and this project models those three and proves what they promise.

* **The weekly partitions.** `Retain` takes old weeks out of the table in an order that a
  stop after any statement leaves resumable; `EnsurePartitions` creates the weeks around
  the clock. `lifecycle.dfy` is the database as a state machine with the statements both
  issue, `histories.dfy` what every history of them keeps, `database.dfy` a server that
  takes other sessions' statements at any moment and can stop answering before or after
  any commit. `retention.dfy` and `partition.dfy` are the two programs, statement by
  statement, proved to issue only statements of such a history. `operations.dfy` runs
  both for as long as anyone likes, and says when they fight.
* **The consumer.** `network.dfy` is every topic of the chain with a consumer group on
  each, the events table and the topics where records end; `loop.dfy` is one member's
  batch as values, and `turns.dfy` its runs, rebalances included; `consumer.dfy` is the
  loop itself against the client's contract, among everyone else's steps, with the
  decoder, the handler and the forwarder it calls. What the world does to it, the
  rebalances, the clocks, the failures and the end of the context, is a parameter, and
  `verdicts.dfy` says what then becomes of each record. `losses.dfy` says what a fetch that
  is thrown away costs the network. `store.dfy` and `handler.dfy` are the insert a
  redelivery repeats and the handler around it.
* **The retry chain.** `chain.dfy`, `marks.dfy`, `forwarder.dfy` and `records.dfy` route a
  record, write its seven headers over an array it shares with the record it came from,
  and follow it over any number of hops. `classify.dfy` holds the two readings of one
  error. The chain is any list of distinct topics; the shipped one is an instance.

`calendar.dfy`, `rfc3339.dfy` and `decimal.dfy` are the texts and the arithmetic below
these: weeks and their names, RFC 3339 times, decimal numbers on 64-bit integers.
Instants count nanoseconds from 1 January of year 1, a Monday and the zero of `time.Time`.

A history is a sequence of states and the statement between each two. A class method
that talks to the database or the broker appends to one, and its contract says the
history is still legal; a crash is a history that ends there. So what is proved of
every history holds at every moment of every run, however it is stopped. A maintainer's
session can end at any statement, and a run answers that it was stopped if and only if
its session ended.

## What does not hold, and exactly when it does

* **A fetch under a deadline is thrown away.** `Run` cancels the poll's context before it
  looks at it, so while any partition waits, every poll result is discarded, and the
  positions have moved. The comment there calls the wait over and goes round again; the
  model follows the code. Over every run, with any rebalances, the loop is always ready
  to poll without a gap if and only if there is no delay, or the group never gives the
  member a second partition and gives it none while its poll is out under a deadline
  (`Turns.LoopIsSafeIff`). Otherwise there are runs that commit past a record nobody
  handled: with two partitions (`Turns.TwoPartitionsLoseARecord`), and with one that is
  handed over, or back, under its deadline (`Turns.HandoverLosesARecord`). The commit
  such a run ends in is a step no history of the network has, and leaves a produced
  record nowhere (`Losses.DiscardIsALoss`, with a history from an empty network in `Losses.ALossHappens`).
* **The floor wraps.** The product in the guard on the promise is a 64-bit count of
  nanoseconds: it covers the weeks kept behind if and only if they are at most 15250
  (`Horizon.FloorGuards`).
* **A stale clock at the lock.** `EnsurePartitions` takes its clock before it waits for the
  lock. There is a history in which a retention run has dropped and stamped a week that
  it then asks for if and only if its clock was read in an earlier week than the one
  that run acted on (`Operations.HorizonFightsIff`). The server takes its CREATE, and
  the next retention run refuses the week (`Operations.StaleCreateIsRefused`). A run
  whose weeks have no record, or are attached in full, is sound whatever its clock, and
  no other is (`Horizon.UnclearWeekFails`).
* **One code, two outcomes.** A row a named check refuses and a row without a partition
  are both named 23514; one is Fatal and one is Retry. `Classification.ReadingsAgreeIff`
  says on which errors the name and the outcome part ways, and that they do on no others.
* **The most negative integer.** `itoa` answers a lone minus sign for it and reads back
  for every other (`Decimal.OutcomeTextReadsBack`).
* **Records that cannot be forwarded.** `Forward` refuses a record if and only if its outcome
  is neither Retry nor Poison, or it is a Retry off the chain, or its round reads and a
  time header does not, or it is a Poison whose round does not read, or it reads and
  the code is outside the vocabulary (`Forwarder.RefusedIff`). Only a Retry whose round
  does not read is parked. So a poison record with a round that is no number stops its
  consumer each time it comes back (`Forwarder.PoisonStuck`), and so does a Retry with a
  first-failed time that is no time (`Forwarder.RetryStuck`). A Retry whose round does not
  read keeps no id but its body's (`Forwarder.UnreadableRoundForgets`).
* **Another unique index.** `Done` means the row is there for a table whose only unique index
  is its key. If another index refuses the row, the answer is `Done` with a cause and
  the row may be nowhere (`Handler.SaidIsClassified`). The shipped table has no other.

## Model

| member | source | states |
|---|---|---|
| `Lifecycle.StepKeepsInv` | internal/store/retention.go:329-386 | every statement of either maintainer, insert or tick of the clock keeps the invariant: a week is attached, or detached with an open record, or gone with its exact count; a recorded week was past for every clock with an opinion; one detach pending at most |
| `Lifecycle.HorizonIsUnrecorded` | internal/store/partition.go:117-129 | no week the horizon may ask for has a record or a leftover table, so the test by name is sound |
| `Histories.HistoryKeepsInv` | internal/store/retention.go:326-386 | the invariant holds at every moment of every history of both maintainers, stopped anywhere |
| `Histories.HistoryEvolves` | internal/store/retention.go:326-348 | between any two moments no gone week comes back, no written count or stamp is rewritten, no record's bounds change, no clock goes back |
| `Histories.NoOrphans` | internal/store/retention.go:388-428 | at every moment a detached table on disk has an open record the resume query returns, a half detached partition has its record, and a record whose table is gone carries the exact count |
| `Histories.CountIsFinal` | internal/store/retention.go:368-385 | once rows_dropped is written it is the number of rows ever inserted into that week, and neither changes again |
| `Histories.RowsAreConserved` | internal/store/retention.go:368-385 | at every moment the rows ever inserted are those attached, those in detached tables and the rows_dropped of the weeks that are gone |
| `Histories.DroppedWeekNeverReturns` | internal/store/retention.go:77-83 | after a drop, fresh or resumed, the week is never again attached or detached, and no horizon run asks for it whose clock was read in no earlier week than any retention run's |
| `Histories.WeeksAreCreatedOnce` | internal/store/partition.go:79-85 | over any history of lock-serialised maintainers no week is created twice |
| `Histories.LiveDataIsSafe` | internal/store/retention.go:190-214 | whatever statement takes a week out of the table, in a first run or a resumed one, the week ended by the database's clock plus a minute less the weeks kept, and the week of that clock is never taken |
| `Operations.OperateInOrder` | internal/store/retention.go:206-223 | any runs of both maintainers with one span, under clocks that do not go back from run to run, with any promises, each stopped anywhere: every week a horizon run asks for is clear, no retention run answers that a week is back, gone weeks, counts and stamps stay, and after any run that answered nil the span is covered, or nothing past the promise is left |
| `Operations.Operate` | internal/store/retention.go:156-251 | any runs of both maintainers, in any order, with any clocks, spans and promises, stopped anywhere, horizon runs with an unclear week not made: no retention run answers that a week is back, gone weeks, counts and stamps stay, and after any run that answered nil the span is covered, or nothing past the promise is left |
| `Server.Database.Exec` | internal/store/retention.go:326-328 | one statement among other sessions' writes: it commits and says so, or the session is over, before it or after it; nothing but its week changes |
| `Server.FrameKeepsEnabled` | internal/store/retention.go:368-385 | other sessions' inserts never disable or falsify a maintainer's next statement |
| `Retention.Retain` | internal/store/retention.go:156-251 | for every span, the floor wrapped or not, and from any state stopped runs left: stopped if and only if its session ended, and otherwise the first guard that refuses or nil; nil means nothing past is attached, nothing detached is left and no record is open; the report names exactly the weeks that were unfinished or past, each once, what was unfinished first and oldest first, then the half detached week, then the rest oldest first, and a stopped run's the first of these; every line is what the closed record says; the lock comes back and no week is ever found returned |
| `Retention.RetainLocked` | internal/store/retention.go:190-251 | the same under the lock: each guard's refusal exactly when it is the first that refuses, with nothing touched up front and nothing reported |
| `Retention.RetireWeeks` | internal/store/retention.go:220-251 | past the guards: what it reports, stopped or not, is the first of what was unfinished and what is past, in that order, and all of it when it answers nil, with nobody left pending |
| `Retention.PutPendingFirst` | internal/store/retention.go:229-241 | nobody pending leaves the candidates as they are, a half detached candidate is spliced to their front and nothing else moves, and the run stops exactly when the pending partition is not one to drop |
| `Retention.DropAll` | internal/store/retention.go:243-250 | the loop over the candidates: nobody but the first is ever pending; it appends one line for each candidate, in their order, as far as it gets, each what the closed record says; nil means all are there and gone |
| `Retention.DropOne` | internal/store/retention.go:329-386 | record, detach, count, drop, stamp, stopped exactly when the session ends: only this week changes; nil means it is gone with an exact count and a stamp; a week whose record is closed is refused, exactly then, untouched, however it came back |
| `Retention.RecordWeek` | internal/store/retention.go:342-354 | the upsert leaves an open record with the candidate's bounds and no count |
| `Retention.DetachWeek` | internal/store/retention.go:356-366 | both halves, or the second alone when it is pending; the first only with nobody pending |
| `Retention.CountWeek` | internal/store/retention.go:368-377 | the count written is the rows of the detached table |
| `Retention.ResumeOne` | internal/store/retention.go:445-481 | one row of the resume query ends gone, counted and stamped |
| `Retention.ResumeUnfinished` | internal/store/retention.go:411-483 | its report is the oldest of the open records of unattached names, each once and oldest first; when it answers none is open any more and it has reported them all |
| `Retention.PastPartitions` | internal/store/retention.go:289-324 | exactly the attached weeks that end at or before the boundary, once each, oldest first by bounds |
| `Retention.UnfinishedRows` | internal/store/retention.go:420-443 | exactly the open records of unattached names, with their bounds, count and whether the table is on disk, oldest first |
| `Retention.PendingDetach` | internal/store/retention.go:254-269 | none exactly when nothing is half detached, and otherwise one that is |
| `Retention.IndexOf` | internal/store/retention.go:271-278 | the first place of a name, or minus one when it has none |
| `Sorting.MoveToFrontOrder` | internal/store/retention.go:240-240 | the splice puts the one first, loses none and keeps the order of the rest |
| `PartitionMaintainer.EnsurePartitions` | internal/store/partition.go:90-140 | for weeks that are clear, on the caller's own span, four ahead and two behind where that is not positive: nil means every instant from that many weeks before the current one to that many after it lies in the partition named after its week and in no other; it reports exactly the weeks that were missing, in order, and a stopped run a prefix of them past which it made at most the next; stopped if and only if its session ended; a default partition stops it untouched |
| `PartitionMaintainer.CreateMissing` | internal/store/partition.go:112-139 | the loop: what was there stays, what is created is what was missing |
| `PartitionMaintainer.EnsureWeek` | internal/store/partition.go:115-137 | one week: made exactly if its name was not there, unless the session ends |
| `PartitionMaintainer.CreateIsAccepted` | internal/store/partition.go:118-136 | the CREATE that follows a missing name meets no table of that name and no overlap |
| `PartitionMaintainer.AttachedIsPresent` | internal/store/partition.go:123-129 | a name that is there has the bounds it promises and is not half detached, so skipping by name leaves no hole |
| `Horizon.HorizonTiles` | internal/store/partition.go:112-138 | after a successful run every instant of the span lies in exactly one attached partition |
| `Horizon.NothingLeftToCreate` | internal/store/partition.go:118-129 | a second run at the same moment creates nothing |
| `Horizon.FloorGuards` | internal/store/retention.go:202-210 | a promise the guard lets through covers the weeks kept behind, for every promise, if and only if they are at most 15250; the least such promise is the floor |
| `Horizon.FreshClockIsClear` | internal/store/partition.go:112-118 | a horizon run whose clock was read in no earlier week than any retention run's asks only for weeks that have no record |
| `Horizon.UnclearWeekFails` | internal/store/partition.go:118-136 | a week that is not clear comes to grief: skipped by name while it is not there, or created over the record of its drop, which no history allows |
| `Operations.HorizonFightsIff` | internal/store/partition.go:98-118 | some history has a retention run, with a promise at the floor, drop and stamp a week a horizon run asks for if and only if the horizon run's clock was read in an earlier week than the retention run's |
| `Operations.StaleCreateIsRefused` | internal/store/retention.go:338-351 | the server takes a stale run's CREATE of a dropped and stamped week, and dropOne refuses that week as returned and changes nothing |
| `Calendar.WeekStartHolds` | internal/store/partition.go:62-69 | weekStart is the one Monday whose week holds the instant |
| `Calendar.WeekStartIdempotent` | internal/store/partition.go:62-69 | weekStart of a weekStart is itself |
| `Calendar.WeekStartMonotone` | internal/store/partition.go:62-69 | a later instant has no earlier weekStart |
| `Calendar.WeekOneHoldsTheFourth` | internal/store/partition.go:71-77 | week 1 of an ISO year is the one that holds its 4 January |
| `Calendar.NextWeek` | internal/store/partition.go:71-77 | the week after is the next of the same ISO year, or week 1 of the next |
| `Calendar.CenturiesRepeat` | internal/store/partition.go:62-77 | 400 years are 146097 days, wherever they start |
| `Calendar.YearStartIs` | internal/store/partition.go:62-77 | the days before a year are 365 for each, one for each fourth, none for each hundredth and one for each four hundredth, for every year before or after the first |
| `Calendar.IsoWeekInjective` | internal/store/partition.go:74-77 | no two Mondays share an ISO year and week |
| `Calendar.PartitionNameInjective` | internal/store/partition.go:71-77 | no two weeks share a partition name, which one record per name rests on |
| `Rfc3339.NameOfAWeek` | internal/store/partition.go:71-77 | the week of Monday, 7 September 2026 is named events_w2026_37 |
| `Network.EventKeepsInv` | internal/consumer/consumer.go:291-315 | every step of a producer or a consumer keeps: what a group has committed past is in events, parked, dead or has a copy one rung down, and every copy of a record has the key and value it was produced with |
| `Network.Chase` | internal/consumer/consumer.go:1-17 | from any rung a record ever was on, following its copies down finds an event of its event's key in the table, or its own key and value parked, dead or waiting |
| `Network.NoRecordIsLost` | internal/consumer/consumer.go:297-404 | at every moment of every history, for every record ever produced to the source, a row of the tenant, the event id and the instant of the event it decodes to is in events, or its own key and value are parked, dead, or on a chain topic at or above that group's committed offset |
| `ConsumerLoop.Consumer.Run` | internal/consumer/consumer.go:217-233 | the loop with its discarded fetch, given what the world does in each turn, under any policy of the group the loop is safe under: it is a run of turns as `Turns` has them, each with the world's part in it, none ending it but the last; what the last turn finished is committed unless the hook refused or the request failed, and it is no error exactly when the context's end is all it was; every state of the broker on the way is one in which nothing is lost |
| `ConsumerLoop.Consumer.BatchOnce` | internal/consumer/consumer.go:297-315 | stopped or not, what the batch finished is committed, unless the hook refuses or the request fails; it ends the loop if and only if the commit failed, a record stopped it or the context ended, and that is an error unless the context's end is all it was; each held partition is set back to its record and paused with its wait |
| `ConsumerLoop.Consumer.Process` | internal/consumer/consumer.go:321-363 | what is acknowledged, held and stopped at is what the records, the clocks and the world's answers say, and everything acknowledged is accounted for on the broker or in the table |
| `ConsumerLoop.Consumer.Consider` | internal/consumer/consumer.go:336-361 | one record: passed over behind a hold, held while it is not ripe, acknowledged if the world's answers account for it, a stop if not |
| `ConsumerLoop.Consumer.One` | internal/consumer/consumer.go:380-404 | the outcome is the decoder's or the handler's, and the record is accounted for if and only if it is Done, or there is a sink, the record can be forwarded and the produce is acknowledged; Done has the event's key in the table; an accounted Retry is parked or one rung down and an accounted Poison dead, as the very record the routing names, with the failure's name in its header; Poison is exactly what does not decode; Fatal, Unknown and nowhere to forward are never accounted for |
| `ConsumerLoop.Consumer.ForwardIfSink` | internal/consumer/consumer.go:390-398 | nil exactly when there is a sink, the record can be forwarded and the produce is acknowledged; then a Retry is parked or one rung down and a Poison dead, under the failure's name |
| `ConsumerLoop.Consumer.HandleEvent` | internal/store/handler.go:21-34 | one transaction of the handler on the shared table, its outcome and its error fixed by whether a partition takes the event and by what the statement broke with: it adds the event's row if its key was not there, or nothing, and Done leaves the key there |
| `ConsumerLoop.Consumer.Hold` | internal/consumer/consumer.go:276-289 | the partition stays paused exactly until the record is ripe and is fetched again from exactly there; to a batch that has held others it is one held more |
| `ConsumerLoop.Consumer.ResumeRipe` | internal/consumer/consumer.go:260-274 | exactly the ripe partitions stop waiting and are unpaused, and a loop ready to poll stays so |
| `ConsumerLoop.Consumer.Commit` | internal/consumer/consumer.go:419-434 | it succeeds exactly when there is nothing to commit or neither the hook refuses nor the request fails; success moves each partition to its highest acknowledged offset plus one and no other; a refusing hook moves nothing; a failing request moves those it landed for, and only there |
| `ConsumerLoop.Consumer.CommitRecords` | internal/consumer/consumer.go:430-432 | each offset sent is one under which every record is accounted for |
| `ConsumerLoop.Consumer.Revoke` | internal/consumer/consumer.go:157-171 | a revoked partition is neither owned, paused nor waited on, the rest are as they were, and a loop ready to poll stays so |
| `ConsumerLoop.Consumer.Rebalance` | internal/consumer/consumer.go:170-186 | exactly the partitions taken are lost, and those given are owned if the group's policy lets them be; each one owned is fetched from where its group has committed |
| `ConsumerLoop.Consumer.Poll` | internal/consumer/consumer.go:217-221 | records of owned, unpaused partitions from their positions on, as many as MaxPoll, in the order the client offers them, up to the first that has none |
| `ConsumerLoop.Consumer.Forward` | internal/retry/forwarder.go:64-81 | nil if and only if the record can be forwarded and the produce is acknowledged, and then the record the routing names, headers included, is where it names: one rung down, parked or dead letter; this member's own commits stay and logs only grow |
| `ConsumerLoop.AckedResolves` | internal/consumer/consumer.go:419-434 | everything below where a gap-free acknowledgement ends is accounted for |
| `Loop.AckedIsContiguous` | internal/consumer/consumer.go:332-362 | for any interleaving of partitions, each is acknowledged up to a point, and where it is held, held exactly there |
| `Loop.AckedIsGapFree` | internal/consumer/consumer.go:332-362 | what is acknowledged of each partition is a prefix of what was fetched of it, all of it unless held or stopped, each record ripe and accounted for when the loop came to it |
| `Loop.StopsAndHolds` | internal/consumer/consumer.go:336-361 | a batch that stopped came to a ripe record that was not accounted for, behind no hold of its partition; each partition it holds, it holds at a record that was not ripe |
| `Loop.StopsWhenItMust` | internal/consumer/consumer.go:336-361 | if it did not stop, every record of a partition it does not hold was ripe and accounted for |
| `Loop.CommitLandsAtPosition` | internal/consumer/consumer.go:406-434 | committing the highest offsets of a gap-free acknowledgement lands where the fetch would go on |
| `Loop.BatchIsReady` | internal/consumer/consumer.go:297-315 | after a batch that did not stop, positions equal commits and what waits is what is paused |
| `Loop.DiscardIsReadyIff` | internal/consumer/consumer.go:220-228 | throwing a fetch away leaves no gap if and only if there was nothing in it |
| `Turns.TurnIsReadyIff` | internal/consumer/consumer.go:217-233 | a turn, with any rebalances, leaves the loop ready to poll again if and only if nothing waited when its deadline was set or nothing was fetched |
| `Turns.SafeRunsStayReady` | internal/consumer/consumer.go:217-233 | under a safe policy every poll of every run starts where the group has committed |
| `Turns.HandledAreConsecutive` | internal/consumer/consumer.go:217-233 | over every such run the records handled on a partition that is not taken away are consecutive, whatever happens to the others, and the group has committed up to the last of them |
| `Turns.TwoPartitionsLoseARecord` | internal/consumer/consumer.go:220-228 | for every delay, every two partitions and whatever records, there is a run that commits past a record no turn acknowledged |
| `Turns.HandoverLosesARecord` | internal/consumer/consumer.go:157-228 | so there is for a member of one partition that is taken and one given, the same or another, while its poll is out under the deadline |
| `Turns.DiscardLosesARecord` | internal/consumer/consumer.go:217-233 | every such run, with any rebalance before it and under the deadline, is one the loop can make, is unready after two turns and has committed past the record after three |
| `Losses.DiscardIsALoss` | internal/consumer/consumer.go:220-228 | the commit such a run ends in, with its records where they were fetched, the one read on accounted for and the thrown away one's only trace itself, is no step of any history of the network and leaves that record lost |
| `Losses.ALossHappens` | internal/consumer/consumer.go:217-233 | an instance, on every chain with a delay topic, for every decoder and delay: a history from an empty network up to the commit of a losing run, in which nothing is lost, the record read on is in the dead letter topic and the commit loses the one thrown away |
| `Turns.LoopIsSafeIff` | internal/consumer/consumer.go:217-233 | every run with any rebalances is always ready to poll without a gap if and only if there is no delay, or the member never owns two partitions and is given none while its poll is out under a deadline |
| `Store.Events.Insert` | internal/store/store.go:89-100 | written exactly when no row agrees with the event in tenant, event id and instant and a partition takes it; already there exactly when some row agrees in all three and a partition takes it; no partition changes nothing; a broken statement wrote it or did not, as its fault says |
| `Store.Events.Consume` | internal/store/store.go:1-8 | a consumer with crashes between insert and commit leaves one pass over the prefix it reached, and never commits past it |
| `Store.RedeliveryIsOnePass` | internal/store/store.go:74-100 | a log delivered with any restarts, each at or below the furthest offset reached, leaves the table one pass over that prefix leaves |
| `Store.FirstWriterWins` | internal/store/store.go:80-81 | the table holds, for each tenant, event id and instant whose week has a partition, the first event that carried the three, once, and nothing else |
| `Handler.Handle` | internal/store/handler.go:21-34 | a statement that did not break is answered Done with no error if a partition takes the event, and if none does Retry, named 23514, with nothing written; Done without a cause is answered only with the event's tenant, id and instant in the table; Done with a cause only when another unique index than the key's refused the row; it never answers Poison or Unknown |
| `Handler.SaidIsClassified` | internal/store/classify.go:37-101 | Done exactly when the insert said the row is there or another unique index refused it; a missing partition is a Retry named 23514 |
| `Classification.ReadingsAgreeIff` | internal/store/classify.go:28-134 | for error chains of any depth, the outcome is Retry exactly when the name is one of a passing failure, except on exactly the listed errors |
| `Classification.InsertPartsWaysIff` | internal/store/classify.go:78-96 | for what an insert answers over a server whose codes are SQLSTATEs, they part ways if and only if it is no timeout and the first server error is 23514 with a named constraint |
| `Classification.SameNameTwoOutcomes` | internal/store/classify.go:78-96 | a named check and a missing partition share a name and not an outcome |
| `Classification.NamesMean` | internal/store/classify.go:110-141 | a server's own code aside, the name is timeout for exactly the errors that time out, schema for those of the others around an unknown enum value, unreachable for those of the rest in which the server was not reached, decode for what is left of the decoder's, and unknown for what remains |
| `Classification.VocabularyIsUsed` | internal/store/classify.go:103-134 | the closed vocabulary beside the server's codes is exactly what an error can be called, and the one name parking gives |
| `Classification.DoneIff` | internal/store/classify.go:37-74 | an insert is done, retried or fatal, and done exactly without an error, with the insert's own sentinel, or with a first server answer 23505 that did not time out |
| `Classification.CodeIsValidIff` | internal/store/classify.go:110-134 | the name is inside the vocabulary unless it is the server's own code and that code is outside it |
| `Classification.ForwarderTakesTheCode` | internal/store/classify.go:103-109 | for a server whose codes are SQLSTATEs, no forwarder refuses a readable record on the code, on either route |
| `Classification.DecodeIsNamed` | internal/event/agent_run.go:91-134 | every error Decode builds is named schema if a value is outside its enum and decode otherwise |
| `Chain.NextRung` | internal/retry/chain.go:36-43 | on a chain of distinct topics the next topic is the next rung, and the last has none |
| `Chain.NoNextOffChain` | internal/retry/chain.go:36-55 | a topic off the chain has no next one |
| `Chain.ShippedIsALadder` | internal/retry/chain.go:14-31 | the shipped chain is such a chain of two tiers, with parked and dead letter off it |
| `Marks.MarksReadBack` | internal/retry/marks.go:143-168 | reading a record after Apply gives back the marks applied, whatever it carried before |
| `Marks.UnmarkedReads` | internal/retry/marks.go:137-168 | a record without marks reads as one that has failed nowhere, on its own topic |
| `Marks.GivenOrKept` | internal/retry/marks.go:236-255 | whatever becomes of it, a record leaves with the id it is given, or with the one it carries if it is given none |
| `Marks.AppliedWrites` | internal/retry/marks.go:283-318 | after Apply each of the seven headers is there at most once, with its mark's value, and absent when that is empty |
| `Marks.HeadersInOrder` | internal/retry/marks.go:274-302 | Headers writes the marks in the decision record's order, each name at most once |
| `Marks.ApplyReplaces` | internal/retry/marks.go:304-318 | other headers keep order and values, a second Apply replaces the first, and twice is once |
| `Records.Record.Apply` | internal/retry/marks.go:306-318 | in place over a slice of an array shared with another record: the new headers are the applied ones in a new array, and the shared array is unchanged |
| `Records.Build` | internal/retry/forwarder.go:64-71 | the record that goes out is the routed one, and the one that came in, header array included, is untouched |
| `Forwarder.ForwardGoes` | internal/retry/forwarder.go:86-108 | a forwarded record goes one rung down, to parked or to dead letter, with its own key, value and foreign headers, and only for Retry or Poison |
| `Forwarder.RetryGoes` | internal/retry/forwarder.go:93-106 | a forwarded Retry goes to the next rung exactly while there is one and the round reads and is not spent, and to parked otherwise |
| `Forwarder.ForwardedSays` | internal/retry/forwarder.go:86-108 | a forwarded record whose round reads carries the failure's code, the topic it failed on, one round more exactly if it goes on to another rung, and a verdict exactly if it does not |
| `Forwarder.LadderAndRoundAgree` | internal/retry/forwarder.go:99-106 | on rung i with round i the next-topic and the spent tests agree |
| `Forwarder.RetryHop` | internal/retry/forwarder.go:94-106 | one Retry of a record on rung i with round i: the next rung with round i + 1, or parked with round i from the last, and the marks read back |
| `Forwarder.PoisonHop` | internal/retry/forwarder.go:90-93 | Poison goes to dead letter from any topic and spends no round if its record reads, and is refused for what does not read if not |
| `Forwarder.WalkEnds` | internal/retry/forwarder.go:94-106 | under arbitrary headers a record that keeps failing is parked or refused within the rungs that are left, and refused exactly where it came to what the forwarder does not forward |
| `Forwarder.RefusedIff` | internal/retry/forwarder.go:86-108 | for every record, outcome and code: refused if and only if the outcome is not forwarded, or a Retry is off the chain, or the round reads and a time does not, or a Poison's round does not read, or the record reads and the code is outside the vocabulary |
| `Forwarder.PoisonStuck` | internal/retry/marks.go:232-240 | a poison record whose round, whatever its text, is no number from zero up is refused from every topic |
| `Forwarder.RetryStuck` | internal/retry/marks.go:161-180 | a record whose round reads and whose first-failed time, whatever its text, is no time is refused, as a Retry from every rung and as Poison from anywhere, and not parked |
| `Forwarder.WalkCounts` | internal/retry/marks.go:236-272 | a record without marks that fails Retry at every hop is on rung k with round k after k of them |
| `Forwarder.JourneyRemembers` | internal/retry/marks.go:182-192 | over any Retry hops the first-failed time is the first hop's clock to the second, the id the first known, the round the number of hops |
| `Forwarder.JourneyEnds` | internal/retry/marks.go:194-234 | after exactly Tiers() hops one more Retry parks with round Tiers(); Poison after any number buries with the rounds spent; neither is stopped before it first failed |
| `Forwarder.WalkKeepsId` | internal/retry/marks.go:243-255 | over any walk, from any topic and under any other headers with a round that reads, a record that carries an event id carries it still |
| `Forwarder.HopKeepsId` | internal/retry/forwarder.go:121-131 | so over one hop of any outcome that is forwarded |
| `Forwarder.UnreadableRoundForgets` | internal/retry/marks.go:206-225 | a Retry whose round does not read is parked with the id its body parses to and no other |
| `Forwarder.UnreadableRoundParks` | internal/retry/marks.go:206-225 | under a clock RFC 3339 text can carry it is parked as fully spent, with round Tiers(), outcome retry-exhausted, code unreadable-round, the topic it was read from, and the clock's second as both times |
| `Forwarder.RefusesOnCodeIff` | internal/retry/marks.go:256-264 | a readable record is refused on the code if and only if the code is outside the vocabulary |
| `Rfc3339.TimeReadsBack` | internal/retry/marks.go:296-299 | a whole second in a four-digit year prints as text that parses to it |
| `Rfc3339.OffsetsShift` | internal/retry/marks.go:170-180 | a time header under an offset reads as the instant that much earlier east of UTC, and later west |
| `Rfc3339.FractionsCount` | internal/retry/marks.go:170-180 | a fraction of up to nine digits counts nanoseconds |
| `Rfc3339.MonthLength` | internal/retry/marks.go:170-180 | each month has its days, and the twelve are the year |
| `Decimal.AtoiReadsItoa` | internal/retry/marks.go:120-124 | a round prints as text that parses to it |
| `Decimal.FormatOutcome` | internal/pipeline/outcome_string.go:24-44 | no write leaves the 20-byte buffer, and the text is the decimal one for every 64-bit integer but the least |
| `Decimal.OutcomeTextReadsBack` | internal/pipeline/outcome_string.go:24-44 | the text parses back with no leading zero, except at the least integer, where it is a lone minus sign |

## Left out

- EnsurePartitions: what a run does whose weeks are not clear is not part of its contract; `Horizon.UnclearWeekFails` and `Operations.StaleCreateIsRefused` say what it comes to. The span's product with seven days is not wrapped at 64 bits there.
- Retain: on the error returns between the resume and the loop it promises nothing about the weeks it resumed, as the source drops that list there. Its floor is the one its guard checks, wrapped or not; that this is the horizon's holds up to 15250 weeks (`Horizon.FloorGuards`).
- Operate: a horizon run whose weeks are not clear is not made, and the retention runs' guards cover the length the history is told under.
- OperateInOrder: one span of at most 15250 weeks behind, and clocks that do not go back; `Operations.HorizonFightsIff` says what a clock that does may meet.
- ResumeOne: the branch that closes a record nobody counted is modelled and, as hand-made drops are not, never taken.
- Run: a policy of the group under which the loop is not safe is excluded, as `Turns.LoopIsSafeIff` says what happens then. It runs for any number of turns, not for ever. A closed client ends the loop as the end of the context with an empty fetch does; that a poll under a deadline waits no longer is not modelled.
- Consume: a broken statement ends the life. That its record may be forwarded instead, and written later under another topic, is the network's part of the model.
- HandleEvent: the table has no unique index but its key's, as the shipped schema has none.
- JourneyEnds: the clock of each hop is a time that RFC 3339 text can carry, and each code is inside the vocabulary.
- Partitions dropped, attached or half detached by hand: a history contains only the statements of the two programs and of the writers.
- Kafka's client and PostgreSQL: contracts, as stated at `Lifecycle.Accepts`, `Loop.PollReturns`, `Loop.Committed` and `Network.Allowed`. Which member gets which partition, sessions and timeouts are not modelled, and a lock timeout, a lost connection and a signal are one end of the maintainer's session, at a statement of nobody's choosing.
- Rows in the network's table are every row ever written; that retention drops them later is the other part of the model.
- The producer's idempotence: a produce that fails may have landed, and duplicates are allowed.
- SQL text, identifier quoting and the rendering of bounds: bounds are instants.
- PostgreSQL's microseconds: an event's time is stored as given.
- JSON and hex decoding and the enum lookup: the decoder is any function of a key and a value to an event or an error of the shapes Decode builds, and the id a body parses to is a parameter of a failure.
- Time layouts that time.Parse accepts beyond a fraction and an offset.
- The defaults of the consumer's configuration beyond the batch size, and a wait whose end is the zero time.
- Logs, texts of errors, command-line programs, migrations and the environment.
