# near-sffl in Dafny

A model of the parts of NEAR SFFL on which its safety rests, with proofs about every run of them.

SFFL operators sign state root updates, operator set updates and checkpoints. The aggregator
collects the signatures, reports a message once enough stake has signed it, stores it, cuts time
into checkpoints, and brings operator set updates to the rollups. The operators' client resends what
the aggregator did not take, a reconnecting subscription follows the logs of mainnet, and the indexer
passes on data found on NEAR.

| file | models |
|---|---|
| `BlsTypes`, `Sums`, `SortedIds` | the group of points, stakes, what is fetched for a message |
| `BlsLedger` | the accumulator of one message, with the stake record its first signer lends it |
| `BlsGoroutine` | the goroutine that aggregates one message: phases, responses, whole runs |
| `BlsReports` | what the goroutine accepts and when it reports, told from the events it receives |
| `BlsReadings`, `StoredReadings` | what a response reads like after it was sent, its key and signature being added to, and what is stored of it |
| `BlsOrders` | two runs of the goroutine, as signatures arrive in different orders |
| `BlsAggregator` | the goroutine as loops over shared objects on the heap, proved to do what these say |
| `BlsService` | all messages together over time: registration, timestamp checks, timers, responses |
| `Database`, `Checkpoint` | storing responses; checkpoint windows, senders and fetches |
| `Pairing`, `Mispairing` | when a stored message has its own aggregation, over runs of the whole service, and runs in which it has not |
| `OperatorSetDelta`, `RollupRegistry`, `RollupVerification`, `Replication` | operator set updates, from mainnet into a rollup's contract |
| `ResendQueue` | the operator client's queue, compacted in place |
| `LogBackfill` | the log subscription with its chunked queries and its cache |
| `CandidatesValidator`, `BlockListener` | the indexer's two queues, each shared by a main loop and a ticker |
| `BitMask` | the bit mask of a compact Merkle proof and its reading by the contract |

Points are modelled by their discrete logarithms modulo the group order, so that a signature verifies
exactly if it is the message's point times the key. A digest is the message itself. Stakes and weights
are natural numbers. Whatever comes from outside (the clock, fetches that fail, sends that fail,
arrival orders, answers of nodes) is a parameter or a choice of the run.

## Promises that need a condition

Nine things one would expect of the code are not so on all inputs. For each there is an input or a
run on which it fails, and the condition under which it holds: exact for all but the order of arrival,
where the operators to blame are named instead.

- The stake counted for a digest is the stake of its signers, although the first signer's own record
  is the accumulator: exactly if every submission so far was harmless (`RunAccurateIffHarmless`), which
  one submission per operator ensures. A repeated submission is counted twice (`RepeatMeetsThreshold`),
  unless its operator has no stake and nobody with stake was added to that operator's record
  (`RepeatHarmlessIff`, `StakelessRepeatIsCounted`); if every operator has stake, a plainer condition is
  exact (`RunAccurateIffSafe`).
- A response lists as non-signers those whose keys its signers' key lacks, and its signers have the
  stake asked for: when it is sent, exactly if the keys accepted on its digest are those of its signers
  once each, and these have the stake (`SentIsSoundIff`); so if each operator was accepted once
  (`RunResponsesAreSound`), and not if one was counted twice (`RepeatedVoteIsUnsound`). But it holds the
  accumulator's own key and signature: one that was sound reads sound later exactly if the keys accepted
  on its digest since add up to nothing (`LaterReadingIsSoundIff`). One more signature spoils it
  (`ThirdSignatureSpoilsReading`), and the table then stores what it has become
  (`UnsoundAggregationIsStored`). A finished response, the only kind the aggregator itself sends to a
  contract, never changes (`FinishedReadingIsSound`).
- The order in which signatures arrive does not matter: if each operator signs once
  (`OrderIndependence`), or if what was accepted was harmless and nobody was accepted on two messages
  (`LoyalRunsAgree`); not if two operators sign two messages each, although each run accepts each
  operator once (`OrderMatters`). Whoever was accepted on both reports then has at least the stake by
  which two thresholds exceed the whole (`ReportsShareSigners`).
- Nothing a checkpoint covers is reported after it is created: not at `blockTime` itself, because the
  timestamp check works in whole seconds, but exactly from the end of that second plus the time two
  hand-overs take (`FrozenIsExact`).
- A stored message is paired with its own aggregation: exactly if the first and the last response
  for its key carry the same message (`FetchPairsIffSameMessage`). The service ensures it if each operator
  votes for one message per key, once in each goroutine, and the goroutines of a key fetch the same
  operators (`FiledWithItsOwn`). None of the three can be left out: there are runs in which an operator
  signs two messages (`SecondMessageIsMispaired`), in which each signs one and a repeated signature is
  counted (`RepeatedVoteIsMispaired`), and in which the second goroutine fetches others
  (`OtherOperatorsAreMispaired`).
- Checkpoint windows leave no gap: exactly if each sender had seen an earlier checkpoint, or happens
  to start where the last one ends (`WindowsFollow`, `FirstSendersLeaveGap`).
- A rollup's next update id only goes up: exactly if no initialisation lands on a set without weight
  with an id already passed (`IdsRiseIff`, `LateInitGoesBack`), and by one each time exactly if none
  lands there with an id that is not the next (`IdsConsecutiveIff`).
- The rollup contract accepts what the aggregator reports: exactly if every non-signer has stake, the
  keys of operators without stake, times the coefficient of the pairing check, cancel out, and the total
  weight times the threshold fits 128 bits (`ResponseAcceptedIff`, `StakelessNonSignerIsRejected`).
- A subscriber gets every log: exactly if no step of the run is a losing one (`RunLosesIff`,
  `StepLosesIff`), where a log is lost if and only if nothing that may happen later delivers it
  (`LostIffNeverComes`). Three runs lose one: after a failed query (`FailedBackfillLosesLog`), within a
  block (`SplitBlockLosesLog`), and by an outage longer than the range (`LongOutageLosesLog`).

## Model

| member | source | states |
|---|---|---|
| BlsLedger.AcceptIsMonotone | aggregator/blsagg/message_blsagg.go:405-427 | No digest's stake in any quorum ever falls, whoever signs and however often. |
| BlsLedger.AcceptAccurateIffHarmless | aggregator/blsagg/message_blsagg.go:405-427 | From correct totals, accepting a submission leaves all totals correct if and only if a signer already on the digest has a record that reads zero, and any other has a record that reads as fetched and, if the digest shares its total with another, reads zero. |
| BlsLedger.HarmlessIffSafe | aggregator/blsagg/message_blsagg.go:405-427 | If every operator has stake, that is: the signer is not yet on the digest, no digest lives in the signer's record with other signers, and the digest's record is shared with no other digest. |
| BlsLedger.HarmlessIffAlone | aggregator/blsagg/message_blsagg.go:405-427 | By who signed what: a submission is harmless if and only if nobody else with stake signed a digest whose total is kept in the signer's record, and the signer has no stake if it is on the digest already or the digest shares its total with another. |
| BlsLedger.RepeatHarmlessIff | aggregator/blsagg/message_blsagg.go:405-427 | A repeated submission leaves all totals correct if and only if its operator has no stake, and nobody with stake signed a digest whose total is kept in that operator's record. |
| BlsLedger.StakelessRepeatIsCounted | aggregator/blsagg/message_blsagg.go:405-427 | An operator set in which one without stake signs first, the other second and the first again, and the total is twice the stake. |
| BlsLedger.RunAccurateIffHarmless | aggregator/blsagg/message_blsagg.go:405-427 | After any sequence of submissions the totals are correct if and only if each submission was harmless in the ledger it met: a wrong total never comes right again. |
| BlsLedger.RunAccurateIffSafe | aggregator/blsagg/message_blsagg.go:405-427 | If every operator has stake, they are correct if and only if each submission was safe in the ledger it met. |
| BlsLedger.OnceIsAccurate | aggregator/blsagg/message_blsagg.go:405-427 | With one submission per operator, every total is the sum of the fetched stakes of its signers despite the aliasing, and no operator is on two digests. |
| BlsLedger.AcceptKeepsSigned | aggregator/blsagg/message_blsagg.go:407-427 | The aggregate signature of every digest stays a valid signature under its aggregate key, even with repeated signers. |
| BlsLedger.OnceIsKeyed | aggregator/blsagg/message_blsagg.go:407-427 | With one submission per operator, each aggregate key is the sum of its signers' keys. |
| BlsLedger.SignersAre | aggregator/blsagg/message_blsagg.go:405-427 | The signers of a digest are exactly the operators with an accepted submission on it. |
| BlsLedger.MajoritiesOverlap | aggregator/blsagg/message_blsagg.go:586-599 | Two groups that both meet a threshold above half share operators, with at least the stake by which twice the threshold exceeds the whole. |
| BlsLedger.DisjointMajorities | aggregator/blsagg/message_blsagg.go:586-599 | Two disjoint groups of operators cannot both meet a threshold above half. |
| BlsLedger.Agreement | aggregator/blsagg/message_blsagg.go:586-623 | While no operator is on two digests and the totals are correct, no two digests of a message both meet the thresholds. |
| BlsLedger.RepeatMeetsThreshold | aggregator/blsagg/message_blsagg.go:405-427 | An operator set in which an operator whose own stake misses the threshold meets it by being accepted twice. |
| BlsGoroutine.StepKeepsInv | aggregator/blsagg/message_blsagg.go:238-334 | Every event keeps: the ledger is what the accepted submissions make, all responses sent without error name one digest that meets the thresholds and still does, and a finished response has been sent exactly if the goroutine has stopped. |
| BlsGoroutine.RunReportsOneMessage | aggregator/blsagg/message_blsagg.go:247-334 | In every run, all responses without error carry the same message, and its stake meets all thresholds. |
| BlsGoroutine.RunFinishesOnce | aggregator/blsagg/message_blsagg.go:223-334 | In every run, whatever index fetches fail, a response is marked finished if and only if the goroutine has stopped and it is the last. |
| BlsReports.AcceptsExactly | aggregator/blsagg/message_blsagg.go:238-334 | In every run, an event adds its submission if and only if it is a registered operator's own signature on its message and the goroutine has not stopped or reached the threshold for another message. |
| BlsReports.ReportsAtFirst | aggregator/blsagg/message_blsagg.go:238-287 | In every run in which no operator signs twice and no timer has fired, the first genuine signature whose message's signers then have the percentage of stake asked for in every quorum is answered with the report of that message, which names all others as non-signers and ends the run exactly if they have the whole stake; before it only failed fetches are sent. |
| BlsReports.ReportedIff | aggregator/blsagg/message_blsagg.go:238-287 | In such a run the goroutine has reported if and only if some signature has completed its message. |
| BlsReports.ReachedAnswers | aggregator/blsagg/message_blsagg.go:289-334 | Once a message has reached the threshold, each further genuine signature on it is answered, with the message or the failed fetch, and is the last if and only if the total has become the whole. |
| BlsReports.OtherIgnored | aggregator/blsagg/message_blsagg.go:238-334 | A signature that is not genuine, or is on another message than the one that reached the threshold, changes nothing. |
| BlsReports.TimerAnswers | aggregator/blsagg/message_blsagg.go:252-334 | A timer ends the goroutine with one finished response: expiry before the threshold, the report of the message after it, or the error if the fetch fails. |
| BlsGoroutine.ResponseSoundIff | aggregator/blsagg/message_blsagg.go:450-546 | As it is sent, a response without error has non-signers that are exactly the rest in ascending order, a key that makes up the whole with theirs, a signature that verifies under it and signers with the stake asked for, if and only if the digest's key is that of its signers and these have the stake asked for. |
| BlsGoroutine.RunResponsesAreSound | aggregator/blsagg/message_blsagg.go:407-523 | In every run that accepts each operator once, whatever it refuses or ignores, each response without error has all of that. |
| BlsGoroutine.KeysAddUp | aggregator/blsagg/message_blsagg.go:480-497 | The listed non-signers' keys and the signers' aggregate key add up to the key of all operators. |
| BlsReadings.SentIsCurrent | aggregator/blsagg/message_blsagg.go:509-523 | What is sent without error has the key and the signature the digest has at that moment. |
| BlsReadings.LaterKey | aggregator/blsagg/message_blsagg.go:414-416 | Later the digest has that key plus the keys of all submissions accepted on it since. |
| BlsReadings.ReadingIsSoundIff | aggregator/blsagg/message_blsagg.go:414-427 | In every run, whatever was accepted and however often, a response sent without error is sound when read after any further events if and only if the keys accepted on its digest by then add up to those of the signers it was sent with, and these have the stake asked for. |
| BlsReadings.SentIsSoundIff | aggregator/blsagg/message_blsagg.go:509-523 | As it is sent, it is sound if and only if the keys accepted on its digest are those of its signers once each, and these have the stake asked for. |
| BlsReadings.LaterReadingIsSoundIff | aggregator/blsagg/message_blsagg.go:414-427 | A response that was sound when sent is sound when read after any further events if and only if the keys accepted on its digest since it was sent add up to nothing. |
| BlsReadings.FinishedReadingIsSound | aggregator/blsagg/message_blsagg.go:263-334 | A finished response reads the same whenever it is read, and is sound if each operator was accepted once until then. |
| BlsReadings.ThirdSignatureSpoilsReading | aggregator/blsagg/message_blsagg.go:414-427 | A run in which two of three operators reach the threshold and the third signs before the response is read: it then lists the third as a non-signer under a key that holds the third's key. |
| BlsOrders.ReportsShareSigners | aggregator/blsagg/message_blsagg.go:238-334 | Of any two runs on the same operators in which what is accepted is harmless, whoever was accepted on the report of the one and on the report of the other has at least the stake by which twice the threshold exceeds the whole. |
| BlsOrders.LoyalRunsAgree | aggregator/blsagg/message_blsagg.go:238-334 | If nobody was accepted on two digests across two such runs, both report the same message. |
| BlsOrders.AcceptedWereSubmitted | aggregator/blsagg/message_blsagg.go:394-430 | What a run accepts was submitted, so one submission per operator means one accepted per operator. |
| BlsOrders.OrderIndependence | aggregator/blsagg/message_blsagg.go:238-287 | Any two arrival orders of the same submissions, one per operator, whatever timers and fetches do, that each report a message without error report the same one. |
| BlsOrders.OrderMatters | aggregator/blsagg/message_blsagg.go:307-313 | Two orders of the same submissions, two operators signing two messages each, in which each run accepts each operator once and they report different messages. |
| BlsAggregator.StakeRecord.Add | aggregator/blsagg/message_blsagg.go:418-423 | Adding a record quorum by quorum adds its value before the call, also when it is the same record. |
| BlsAggregator.FetchRecords | aggregator/blsagg/message_blsagg.go:346-350 | Each operator has a stake record of its own, which reads as fetched. |
| BlsAggregator.PointPair.Add | aggregator/blsagg/message_blsagg.go:415-416 | Key and signature are added to in place, and a signature that verifies under its key, added to one that does, gives one that does. |
| BlsAggregator.ValidationInfo.AcceptFirst | aggregator/blsagg/message_blsagg.go:405-413 | A first signature makes the signer's own record the accumulator, with a key and a signature of its own. |
| BlsAggregator.ValidationInfo.AcceptMore | aggregator/blsagg/message_blsagg.go:414-427 | A further signature updates record, key and signature of the digest in place and nothing else, through all their aliases. |
| BlsAggregator.ValidationInfo.Accept | aggregator/blsagg/message_blsagg.go:405-427 | On the heap, accepting a signature does to the contents what the ledger's step does, and no digest ever gets another key or signature object. |
| BlsAggregator.ValidatePercentages | aggregator/blsagg/message_blsagg.go:613-623 | Succeeds if and only if all percentages are from 51 to 100; otherwise the error says of the first that is not whether it is above 100 or below 51. |
| BlsAggregator.BuildThresholds | aggregator/blsagg/message_blsagg.go:368-371 | Validated percentages give every listed quorum, and no other, the last percentage listed for it, from 51 to 100. |
| BlsAggregator.CheckIfStakeThresholdsMet | aggregator/blsagg/message_blsagg.go:586-599 | True if and only if a hundred times the signed stake is at least the percentage of the total in every quorum asked for. |
| BlsAggregator.CheckIfFullStakeThresholdMet | aggregator/blsagg/message_blsagg.go:601-611 | True if and only if the signed stake is the total in every quorum signed for. |
| BlsAggregator.ListNonSigners | aggregator/blsagg/message_blsagg.go:480-491 | From a map's arbitrary order, the one ascending list of the operators that did not sign. |
| BlsAggregator.ListPubkeys | aggregator/blsagg/message_blsagg.go:493-497 | The non-signers' keys in the order of their ids. |
| BlsAggregator.GetStatus | aggregator/blsagg/message_blsagg.go:432-448 | Full stake if and only if every quorum has its total; below the threshold if and only if some quorum lacks its total and some has less than the percentage asked for; else reached. |
| BlsAggregator.GetResponse | aggregator/blsagg/message_blsagg.go:450-546 | The response made from the heap holds the digest's own key and signature objects, and reads like the one the goroutine's model sends, failed index fetches included. |
| BlsAggregator.ReadsCurrent | aggregator/blsagg/message_blsagg.go:509-520 | At any later moment a response already sent reads with the key and the signature that the ledger has by then. |
| BlsAggregator.HandleSignedMessageDigest | aggregator/blsagg/message_blsagg.go:394-430 | Which error is returned: an operator that is not registered, or a signature other than the one its key gives on the message. Either changes nothing, and any other signature is accepted as exactly that submission. |
| BlsAggregator.HandlePreThreshold | aggregator/blsagg/message_blsagg.go:238-287 | One event before the threshold sends and changes what the model's step does. |
| BlsAggregator.HandleReached | aggregator/blsagg/message_blsagg.go:289-334 | One event after the threshold sends and changes what the model's step does. |
| BlsAggregator.SingleMessageAggregator | aggregator/blsagg/message_blsagg.go:223-334 | For every sequence of events the imperative goroutine sends exactly the responses of the modelled run, and at the end each reads as the model says it does by then, so all results on runs hold of it. |
| BlsService.TimestampOkUntil | aggregator/aggregator.go:722-732 | A message passes exactly until the end of the sixtieth second after its timestamp. |
| BlsService.TimersFireOnTime | aggregator/blsagg/message_blsagg.go:223-334 | In every run, a timer fires before the threshold sixty seconds after the operators were fetched, and after it thirty seconds after it was reached, or later by at most the latency. |
| BlsService.OneTaskPerKey | aggregator/blsagg/message_blsagg.go:142-187 | In every interleaving of registering, signing and closing, at most one aggregation per message key is open. |
| BlsService.FailedFetchBlocksKey | aggregator/blsagg/message_blsagg.go:156-187 | After a failed fetch the key stays registered for the rest of the run and no goroutine for it is ever live again. |
| BlsService.DeliverInTime | aggregator/aggregator.go:534-607 | A signature checked in time and delivered within the latency is reported before the message's limit. |
| BlsService.TimerInTime | aggregator/blsagg/message_blsagg.go:252-334 | A timer reports an error before the threshold, and after it reports before the message's limit. |
| BlsService.GuardsNeverBlock | aggregator/blsagg/message_blsagg.go:223-334 | In every run each goroutine's ledger is well formed, so the steps that ask for it are never kept from happening. |
| BlsService.CheckpointWindowIsFrozen | aggregator/aggregator.go:391-391 | In every run, from the end of the block's second plus twice the latency on, every response without error is for a message dated after the checkpoint's end. |
| BlsService.FrozenIsExact | aggregator/aggregator.go:391-391 | At any earlier moment there is a run that still reports a message the checkpoint covers, so the bound is exact. |
| Database.Table.StoreMessage | aggregator/database/database.go:109-128 | A message is filed only if its key is new; keys stay unique. |
| Database.UpdateKeepsMessages | aggregator/database/database.go:148-165 | Storing an aggregation for a row that has one changes no message that a fetch of any window returns. |
| Database.UpdateShows | aggregator/database/database.go:148-165 | It changes what a fetch returns if and only if the row is in the window and the aggregation is another. |
| Database.Table.HandleReachedQuorum | aggregator/aggregator.go:431-467 | A response without error files its message and aggregation, one with an error nothing; if the first write fails nothing is filed, if the second does the message alone. |
| Database.Table.Fetch | aggregator/database/database.go:269-340 | The two lists are of one length; index by index they hold the message and the aggregation of one row, for rising rows, which are exactly those of the window that have an aggregation. |
| Database.FetchCheckpointMessages | aggregator/database/database.go:269-340 | Which timestamps are refused, and otherwise that both pairs of lists are such listings of their tables. |
| Database.RowHoldsFirstAndLast | aggregator/database/database.go:109-165 | After any responses, a key's row holds the first message reported and the aggregation of the last. |
| Database.FetchPairsIffSameMessage | aggregator/database/database.go:109-165 | Whatever a fetch returns, the message at an index is the first reported for its key and the aggregation at that index the last, and they are of one message if and only if those two are. |
| Database.ReturnedAreSelected | aggregator/database/database.go:269-340 | A table and a window settle the messages that a fetch returns, and their order. |
| StoredReadings.UnsoundAggregationIsStored | aggregator/aggregator.go:292-293 | Handled after the third of three operators has signed, a response of the first two stores an aggregation that is not sound. |
| Pairing.NextKeepsVoteInv | aggregator/blsagg/message_blsagg.go:142-187 | Every step of the service keeps: a goroutine has accepted only votes for its key, one per operator, and whatever was sent without error names a message for which operators with the share asked for have voted. |
| Pairing.FiledWithItsOwn | aggregator/database/database.go:109-165 | In every run of the service in which operators vote for one message per key, once in each goroutine, and the goroutines of a key fetch the same operators, every message filed is filed with its own aggregation, however late responses are handled and whatever they read by then. |
| Pairing.CheckpointsPairOnce | aggregator/database/database.go:269-340 | In such a run, and with senders that each but the first had read a checkpoint's end, the checkpoints, each fetched at a time of its own when its window is frozen, together return every message filed in their whole span once, and in the list beside it, at the same index, its own aggregation. |
| Mispairing.SecondMessageIsMispaired | aggregator/blsagg/message_blsagg.go:142-187 | A run of the service in which an operator signs two different messages of a key one after the other, and the first is filed with the aggregation of the second. |
| Mispairing.RepeatedVoteIsUnsound | aggregator/blsagg/message_blsagg.go:405-427 | A run in which one operator signs twice and a response without error is sent whose one signer lacks the stake asked for. |
| Mispairing.RepeatedVoteIsMispaired | aggregator/blsagg/message_blsagg.go:394-430 | A run in which each operator votes for one message, one of them twice in a goroutine, and a message is filed with the aggregation of another. |
| Mispairing.OtherOperatorsAreMispaired | aggregator/aggregator.go:549-556 | A run in which each operator votes for one message, once, the second goroutine of the key fetches other operators than the first, and a message is filed with the aggregation of another. |
| Database.StoreAfterWindow | aggregator/database/database.go:269-340 | Filing a message dated after a window never changes the messages a fetch of it returns, and changes the aggregations exactly if its key is filed under a message of the window. |
| Database.FetchSame | aggregator/database/database.go:269-340 | The messages a fetch returns do not depend on which aggregations were stored with them. |
| Database.CheckpointIsStable | aggregator/database/database.go:269-340 | In every run of the service, once a checkpoint's window is frozen and the responses sent by then are handled, however late and whatever they read by then, every fetch of it returns the same messages in the same order. |
| Checkpoint.WindowIsExact | aggregator/aggregator.go:391-395 | The window's 64-bit arithmetic does not wrap around if and only if the chain is older than the timeouts and, for a first checkpoint, the interval. |
| Checkpoint.YoungChainCreatesNothing | contracts/evm/src/eth/SFFLTaskManager.sol:160-187 | On a younger chain the contract accepts no window. |
| Checkpoint.CreatesIff | aggregator/aggregator.go:385-399 | In every run, a sender's task is created if and only if its window, as meant, is not empty and starts after every window created by then, and it has that window. |
| Checkpoint.WindowsFollow | aggregator/aggregator.go:385-399 | With senders interleaved in any way, windows only advance and never overlap, and follow without a gap if and only if the sender had read a checkpoint's end or happens to start there. |
| Checkpoint.FirstSendersLeaveGap | aggregator/aggregator.go:392-395 | A run in which two senders read before the first checkpoint and the second leaves a gap. |
| Checkpoint.SequentialTasksTile | contracts/evm/src/eth/SFFLTaskManager.sol:160-187 | If every later sender had seen a checkpoint, the windows of every run tile time. |
| Checkpoint.SelectedSplits | aggregator/database/database.go:269-340 | Fetching two adjoining windows returns together what one fetch of both does. |
| Checkpoint.CheckpointsPartition | aggregator/database/database.go:269-340 | Fetches from one table of windows that tile time return, as a multiset, what one fetch of the whole span returns. |
| Checkpoint.CheckpointsCoverOnce | aggregator/aggregator.go:385-399 | In every run of the senders in which each but the first had read a checkpoint's end, and every run of the service, the checkpoints, each fetched at a time of its own when its window is frozen, together return every message filed with a time in their whole span once, and no other. |
| Checkpoint.WindowsDisjoint | aggregator/aggregator.go:385-399 | No row is fetched in two windows that tile time. |
| OperatorSetDelta.ValueOfDecimal | core/chainio/avs_reader.go:106-112 | A number is recovered from its decimal text. |
| OperatorSetDelta.KeyIsInjective | core/chainio/avs_reader.go:106-112 | Different public keys never share the text they are filed under. |
| OperatorSetDelta.DeltaRoundTrip | core/chainio/avs_reader.go:92-147 | Overwriting the previous weights with the delta's gives the next weights, for every key. |
| OperatorSetDelta.Collect | core/chainio/avs_reader.go:104-122 | Every key of either set is filed once with its weight in each, zero where absent. |
| OperatorSetDelta.SwapsKeepDelta | core/chainio/avs_reader.go:142-144 | However the sort swaps entries, the list stays the delta. |
| OperatorSetDelta.GetOperatorSetUpdateDelta | core/chainio/avs_reader.go:92-147 | The result lists exactly the keys whose weight changes, once each, with their next weight. |
| RollupRegistry.NoTotalIffNoMembers | contracts/evm/src/base/utils/RollupOperators.sol:88-120 | The total weight is zero if and only if nobody has weight. |
| RollupRegistry.Recount | contracts/evm/src/base/utils/RollupOperators.sol:100-112 | After one overwrite the running total and aggregate key are those of the new weights, whether somebody joins, leaves or changes. |
| RollupRegistry.Overwrite | contracts/evm/src/base/utils/RollupOperators.sol:94-116 | Reverts if and only if some entry repeats the weight it meets or a running total does not fit 128 bits; otherwise weights, total and aggregate key are those of the whole list applied. |
| RollupRegistry.SmallWeightsFit | contracts/evm/src/eth/SFFLOperatorSetUpdateRegistry.sol:182-189 | With stakes of 96 bits, as mainnet has them, a list of up to two thousand million operators never overflows the total. |
| RollupRegistry.OperatorSet.Update | contracts/evm/src/base/utils/RollupOperators.sol:88-120 | The contract's update keeps total and aggregate key equal to the sums over members, and a revert, for a repeated weight or an overflow, changes nothing. |
| RollupRegistry.OperatorSet.SetInitialOperatorSet | contracts/evm/src/rollup/SFFLRegistryRollup.sol:88-96 | Succeeds exactly on a set without weight with a list that does not revert, and then sets the id too. |
| RollupRegistry.OperatorSet.UpdateOperatorSet | contracts/evm/src/rollup/SFFLRegistryRollup.sol:103-113 | Succeeds exactly for the next id, with weight, verified and not reverting, and then advances the id by one. |
| RollupVerification.VerifyCalldata | contracts/evm/src/base/utils/RollupOperators.sol:128-166 | Accepts if and only if the set has weight, the listed have weight and ascend by hash, the pairing equation holds for the sum of the keys of the operators not listed, the total times the threshold fits 128 bits, and the operators not listed have that percentage of the total weight. |
| RollupVerification.WhatIsLeft | contracts/evm/src/base/utils/RollupOperators.sol:139-154 | For such a list, what the loop leaves of the total weight and of the aggregate key are the weight and the key of the operators not listed. |
| RollupVerification.OwnKeyAcceptedIff | contracts/evm/src/base/utils/RollupOperators.sol:128-166 | Given the key of the operators not listed, an agreement is accepted if and only if the list is such, the signature is that key's on the message, and they have the percentage asked for. |
| RollupVerification.PairedOwnKeyIff | contracts/evm/src/base/utils/RollupOperators.sol:176-197 | When both forms of the key agree, the pairing check passes if and only if the signature is valid. |
| RollupVerification.TotalsAgree | contracts/evm/src/base/utils/RollupOperators.sol:88-120 | A rollup that mirrors the operators has their total stake as total weight. |
| RollupVerification.ApksAgree | contracts/evm/src/base/utils/RollupOperators.sol:88-120 | Its aggregate key is that of the operators with stake. |
| RollupVerification.KeyCheckIff | contracts/evm/src/base/utils/RollupOperators.sol:154-163 | For a valid signature, the contract's pairing check passes if and only if the keys of operators without stake, times the coefficient, cancel out. |
| RollupVerification.ResponseAcceptedIff | contracts/evm/src/base/utils/RollupOperators.sol:128-166 | A sound response of the aggregator is accepted by a mirroring rollup if and only if somebody has stake, all non-signers do, the keys of those without, times the coefficient, cancel out, and the total times the threshold fits 128 bits. |
| RollupVerification.StakelessNonSignerIsRejected | contracts/evm/src/base/utils/RollupOperators.sol:147-149 | A sound response, all the stake having signed, that is rejected because a non-signer has no weight. |
| RollupVerification.QuorumIsMet | contracts/evm/src/base/utils/RollupOperators.sol:165-165 | Meeting the aggregator's threshold in quorum 0 meets the rollup's, rounding included. |
| Replication.DeltaApplies | core/chainio/avs_reader.go:92-147 | The contract writes the delta on the set it was taken from unless a total overflows, and it gives the next set. |
| Replication.InitialisesIff | contracts/evm/src/rollup/SFFLRegistryRollup.sol:88-96 | A list of distinct keys initialises a rollup if and only if nobody on it lacks weight and its total fits 128 bits. |
| Replication.ReplicaMatchesMainnet | aggregator/rollup_broadcaster.go:133-187 | In every run of initialisations, broadcasts in any order and transactions landing late or twice, the rollup holds exactly the mainnet set before its next id. |
| Replication.UpdatesInOrder | aggregator/rollup_writer.go:86-197 | Each change of the rollup goes to the very next id, so none is skipped or applied twice, unless the set held was without weight. |
| Replication.IdsRiseIff | contracts/evm/src/rollup/SFFLRegistryRollup.sol:88-113 | In every run the ids the rollup goes to rise strictly if and only if no initialisation that changes it, landing on a set without weight, has an id no higher than the one it has. |
| Replication.IdsConsecutiveIff | contracts/evm/src/rollup/SFFLRegistryRollup.sol:88-113 | They are consecutive if and only if no such initialisation, after the first, has another id than the next. |
| Replication.ExecutesIff | contracts/evm/src/rollup/SFFLRegistryRollup.sol:88-113 | Exactly which pending transactions change the rollup, and to what, overflows included. |
| Replication.WeightlessIsStuck | contracts/evm/src/rollup/SFFLRegistryRollup.sol:103-113 | A rollup whose set has no weight takes no update. |
| Replication.LateInitGoesBack | contracts/evm/src/rollup/SFFLRegistryRollup.sol:88-96 | A run in which a late copy of the initialisation takes the rollup back to an earlier id, the update between having been submitted by another account. |
| Replication.UpdateOperatorSet | aggregator/rollup_writer.go:138-197 | Five attempts at most, stopping before exactly at the first that succeeds (another id is next, or the transaction is sent) or is cancelled; which result is returned; and that the update is applied, once, if and only if it is the next of a set with weight, can be written, and some attempt made has landed. |
| Replication.InitTwice | aggregator/rollup_writer.go:86-136 | Initialising again with the same list and id changes nothing. |
| Replication.InitializeOperatorSet | aggregator/rollup_writer.go:86-136 | The same for the loop without a guard: five attempts at most up to the first sent or cancelled, which result is returned, and that the set is initialised if and only if it was without weight, the list can be written, and some attempt made has executed, however many did. |
| ResendQueue.RpcClient.TryResend | operator/rpc_client.go:199-283 | From the first network error on, the queue is unchanged; of the entries before it exactly those are kept, in order and with one more retry, that were rejected and not for the tenth time. |
| ResendQueue.TickAttempts | operator/rpc_client.go:210-281 | A tick tries each queued message once, in order, up to and including the first that meets a network error, and none after it. |
| ResendQueue.RpcClient.Retry | operator/rpc_client.go:210-279 | The loop up to the first network error writes what is kept and overwrites no unread entry. |
| ResendQueue.RpcClient.Settle | operator/rpc_client.go:250-279 | After a resend that got through, a rejected entry is kept with one more retry, or dropped at ten, and no entry still to be read is overwritten. |
| ResendQueue.RpcClient.MoveDown | operator/rpc_client.go:261-265 | The rest is moved down over the gap unchanged. |
| ResendQueue.RpcClient.Append | operator/rpc_client.go:289-295 | The message goes to the end of the queue with no retries, also when the backing array is full. |
| ResendQueue.RpcClient.SendOperatorMessage | operator/rpc_client.go:285-309 | The message is queued exactly if no connected client delivered it. |
| ResendQueue.ResentSplits | operator/rpc_client.go:210-281 | Entries before the first network error leave what they leave whatever comes after. |
| ResendQueue.ResendsQueue | operator/rpc_client.go:199-283 | A tick of a run, resend by resend, leaves the queue the compaction leaves. |
| ResendQueue.NextKeepsInv | operator/rpc_client.go:177-309 | Every send and tick keeps: each message in one place, the queue in order of issue, retries equal to the rejections logged, no attempt after a delivery. |
| ResendQueue.RunAccountsForEveryMessage | operator/rpc_client.go:177-309 | In every run each message is queued, delivered or dropped, and one of these only; delivered if and only if an attempt was, never sent again after it; dropped if and only if ten resends were rejected. |
| ResendQueue.TickMakesProgress | operator/rpc_client.go:199-283 | The retries left never grow on a tick, and shrink whenever the first resend gets through. |
| ResendQueue.TenTicksEmptyTheQueue | operator/rpc_client.go:199-283 | Ten ticks without a network error empty the queue whatever the answers. |
| LogBackfill.FromBlock | core/safeclient/client.go:198-203 | At most the allowed range is asked for, never before the last block, and from the last block itself if and only if it is within range and not block 0. |
| LogBackfill.QueriesJoin | core/safeclient/client.go:205-223 | Adjoining queries return together what one query of both ranges does. |
| LogBackfill.ResubFilterLogs | core/safeclient/client.go:182-226 | The queries are contiguous, disjoint and at most a chunk wide; unless one fails, they return exactly what one query of the range would. |
| LogBackfill.Subscription.TryCacheLog | core/safeclient/client.go:157-161 | A log is new if and only if it is not cached, and then evicts the oldest of a hundred. |
| LogBackfill.Subscription.HandleLog | core/safeclient/client.go:277-281 | A live log is delivered if and only if it is not cached, and the last block never falls. |
| LogBackfill.Subscription.HandleMissed | core/safeclient/client.go:244-249 | Missed logs are delivered one after the other in the same way. |
| LogBackfill.NextKeepsInv | core/safeclient/client.go:150-297 | Every step keeps: the cache holds exactly the last hundred deliveries, equal ones are further apart, and the last block is at most the chain's. |
| LogBackfill.RepeatsAreFarApart | core/safeclient/client.go:150-161 | In every run, two deliveries of one log have at least a hundred others between. |
| LogBackfill.NextKeepsRecoverable | core/safeclient/client.go:182-297 | Every step keeps: no log outstanding is from before the last block, and a connected stream has passed none, provided that a query is one that succeeds and reaches. |
| LogBackfill.NothingIsMissed | core/safeclient/client.go:182-297 | In every run of outages and reconnects whose queries succeed and reach, a connected subscriber has received all logs the stream has passed but those in its buffer. |
| LogBackfill.BackfilledDelivers | core/safeclient/client.go:228-252 | After a successful query a log has been delivered if and only if it had been before, or the last block was behind and the log's block is within the range asked for. |
| LogBackfill.BackfillCompletesIff | core/safeclient/client.go:182-252 | After a query all logs have been delivered if and only if it succeeded and asked for every block with a log outstanding. |
| LogBackfill.TakeLosesIff | core/safeclient/client.go:277-281 | A live log puts others out of reach if and only if the stream has passed one from before the first block that a query could ask for after it. |
| LogBackfill.StepLosesIff | core/safeclient/client.go:182-297 | From a state with nothing lost, a step loses something if and only if it is a block, a live log, or the end or start of a stream that leaves an outstanding log before the first block a query can ask for; a query never does. |
| LogBackfill.RunLosesIff | core/safeclient/client.go:182-297 | In every run something is lost if and only if some step was a losing one. |
| LogBackfill.LostIffNeverComes | core/safeclient/client.go:182-297 | An outstanding log is lost if and only if no continuation of the run delivers it. |
| LogBackfill.LostForever | core/safeclient/client.go:182-297 | A log out of reach is never delivered in the rest of the run. |
| LogBackfill.FailedBackfillLosesLog | core/safeclient/client.go:238-242 | A run in which a failed query and then a live log lose a log. |
| LogBackfill.SplitBlockLosesLog | core/safeclient/client.go:190-192 | A run in which every query succeeds and is in range and a log is lost, the stream having gone down within a block. |
| LogBackfill.LongOutageLosesLog | core/safeclient/client.go:198-203 | For every range, a run in which every query succeeds, and an outage longer than the range loses a log that the query after it does not bring. |
| CandidatesValidator.Shared.Flush | indexer/src/candidates_validator.rs:60-94 | It stops at the first candidate that is unfinished, cannot be looked up, or succeeds with payloads while the output is closed, and at no other; those before it are resolved by their answers, in order, with the payloads of the successful ones put out, and the outcome is that of the answer it stopped at. |
| CandidatesValidator.Shared.Send | indexer/src/candidates_validator.rs:116-137 | The payloads go out in order until the channel is found closed. |
| CandidatesValidator.FlushGives | indexer/src/candidates_validator.rs:60-94 | The steps of a flush, one after the other, come to just that. |
| CandidatesValidator.FlushResolvesPrefix | indexer/src/candidates_validator.rs:60-94 | A flush resolves a prefix of the queue in order, puts out the payloads of its successful ones, and reports success if and only if the queue is empty. |
| CandidatesValidator.NextKeepsInv | indexer/src/candidates_validator.rs:35-203 | Every step of either party keeps order, output, mutual exclusion, and the queue empty while the main loop is past its flush. |
| CandidatesValidator.NoCandidateIsLost | indexer/src/candidates_validator.rs:139-203 | In every interleaving, candidates received are in order those resolved, queued and in hand; an error ends the main loop with at most one in hand. |
| CandidatesValidator.PublishedInArrivalOrder | indexer/src/candidates_validator.rs:35-203 | In every interleaving, while the output is open, the payloads published are those of exactly the candidates found successful, in arrival order, none while an earlier one is pending. |
| CandidatesValidator.NothingWaitsInVain | indexer/src/candidates_validator.rs:60-94 | In every interleaving, while the output is open and no flush is under way, the queue is not empty only because the last answer about its first candidate was that it is unfinished or cannot be looked up. |
| CandidatesValidator.EndsIff | indexer/src/candidates_validator.rs:139-203 | The main loop ends at a step if and only if its input ends there, a status it needs cannot be fetched (for its own candidate only if the receipt has not failed), or a payload meets the closed output. |
| CandidatesValidator.FailedReceiptIsDropped | indexer/src/candidates_validator.rs:172-178 | A candidate whose receipt has failed is resolved as failed, puts out nothing, and the loop goes on to the next. |
| BlockListener.Shared.Flush | indexer/src/block_listener.rs:112-136 | What a flush sends, drops and leaves, and that it reports success if and only if the queue is empty. |
| BlockListener.FlushSplits | indexer/src/block_listener.rs:119-133 | A flush drops the expired entries, which come first, sends as many of the next as there is room for and keeps the rest. |
| BlockListener.ExpiredComeFirst | indexer/src/block_listener.rs:119-124 | In a queue in order of time the expired entries are a prefix. |
| BlockListener.NextKeepsInv | indexer/src/block_listener.rs:84-237 | Every step keeps: all extracted are in order resolved, queued or in hand, the queue is in order of time, and is empty while the main loop is past its flush. |
| BlockListener.ChannelCarriesInOrder | indexer/src/block_listener.rs:84-237 | In every interleaving the channel carries candidates in order of arrival and none twice; any other that has arrived was queued for thirty seconds and dropped, is queued, or is in hand. |
| BlockListener.QueuedComeAfter | indexer/src/block_listener.rs:177-237 | Nothing is sent past a queued candidate. |
| BlockListener.QueuesAtFlushIff | indexer/src/block_listener.rs:177-237 | The main loop queues what it holds if and only if more is left of the queue than there is room for once what is thirty seconds old is dropped, behind what is left; otherwise it goes on to send it. |
| BlockListener.DroppedHadWaited | indexer/src/block_listener.rs:112-136 | In every interleaving, a candidate that was dropped had been put into the queue thirty seconds or more before. |
| BlockListener.StampedWhenQueued | indexer/src/block_listener.rs:177-237 | In every interleaving, each entry of the queue carries the time at which its candidate was put there. |
| BitMask.FormatBitMask | core/smt/smt.go:97-103 | The bytes in reverse order, each with its bits reversed. |
| BitMask.ReverseBit | core/smt/smt.go:100-100 | Bit i of the reversed byte is bit 7 - i of the byte. |
| BitMask.FormattedBit | core/smt/smt.go:87-103 | Bit i of the formatted mask as an integer is bit i of the mask counted from the most significant. |
| BitMask.FormattedTwice | core/smt/smt.go:97-103 | Formatting twice gives the mask back. |
| BitMask.ReadSideNodes | contracts/evm/src/eth/utils/SparseMerkleTree.sol:80-81 | Which side nodes the contract's loop uses, and that it reverts when it runs out. |
| BitMask.ContractReadsEverySideNode | contracts/evm/src/eth/utils/SparseMerkleTree.sol:80-81 | From the formatted mask and the side nodes a compact proof carries, the contract uses exactly the side nodes of the full proof. |

## Left out

- BN254, Keccak, RLP, ABI and Borsh: an abstract cyclic group and injective digests stand for them; a collision is not modelled.
- BlsGoroutine.RunReportsOneMessage: says nothing of when a response is taken from the unbuffered channel; whether senders and goroutines make progress is not modelled.
- BlsReports.ReportsAtFirst: for runs in which no operator has two genuine signatures, because a repeated one may be counted again; what it then adds is the subject of `RunAccurateIffHarmless`.
- BlsService.CheckpointWindowIsFrozen: the time from a check to the delivery, and from a timer to its handling, is bounded by a parameter; without such a bound nothing is ever frozen.
- Contents of the index fetches: only whether they succeed.
- Database.CheckpointIsStable: both writes of every response succeed; what a failed write leaves is stated of single calls.
- OperatorSetDelta.GetOperatorSetUpdateDelta: the order of the delta is not claimed, because the comparator reads a hash list that is not permuted with the delta.
- RollupVerification.VerifyCalldata: a pairing precompile that fails for lack of gas is not modelled; it reverts.
- Replication.ReplicaMatchesMainnet: an update that passes the contract's signature check is assumed to carry the delta of its id, which is what operators sign.
- The owner's forced operator set update and the pausing of contracts: they bypass the protocol.
- ResendQueue.RunAccountsForEveryMessage: a send and its queueing are one step, so numbers follow the order of queueing; dialling and closing the connection are left out.
- LogBackfill.ResubFilterLogs: block numbers are below 2^63 less a chunk; and with a chunk size of zero and no query that fails, on which the source's loop does not end, nothing is claimed.
- LogBackfill.NothingIsMissed: chain reorganisations are not modelled, and logs mined between reading the first block number and subscribing are before `base`.
- Extraction of candidates from NEAR blocks, the relayer, the attestor, the notifier, RabbitMQ: filters and plumbing with easy properties.
- The sparse Merkle tree itself belongs to a library outside the repository; only what is read from its compact proofs is modelled.
- On-chain submission of checkpoint responses, challenges, RPC and REST servers, configuration and metrics.
