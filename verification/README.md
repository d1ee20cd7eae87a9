# Reliable Service Framework: broker protocol, server copies and health checkers

The Reliable Service Framework runs a service as `nmr` redundant copies behind a broker. A client asks
the broker; the broker forwards the request to the copies it believes alive, collects their replies under
the client's name, and answers as soon as a value has the majority, when all copies have answered without
one, or when the deadline passes. Heartbeats write silent copies off; registrations add copies. A copy
executes a request only if its sequence id is the expected one, and a health checker beside each process
restarts it when its pongs fail to come.

This project models that protocol and proves what it keeps over whole runs. `nmr` is any byte, and the
number of services, clients, requests and steps is unbounded within the integer widths of the program.

`dafny verify dfyconfig.toml` verifies everything.

## How the model is laid out

| file | what it holds |
|---|---|
| `Common`, `TimeArithmetic`, `Codec` | constants, `struct timespec` arithmetic, the parameter printer and parser |
| `Voting` | the voter, early against full voting |
| `Requests`, `Database` | the lists of pending requests, the service database object |
| `BrokerMachine`, `Broker` | the broker as a state machine with one event per handled message or timer, and the broker object, each of whose handlers follows the machine |
| `Deadlines`, `Snapshots`, `Faults` | the deadline pass: its complete effect, when it is the intended one, and its effect in any state at all; where the broker stops |
| `BrokerRuns` | runs in which no request is accepted from a client that waits, and lock-step runs |
| `Repeats`, `FreeRuns`, `BrokerTheorems` | lists with several requests of a client; every run of the broker, and what holds in it |
| `Fleet`, `Misplaced` | the copies of a service register one after the other; the runs in which conservation fails |
| `Registry`, `Routing` | registration, ports and routing, over any run at all: what goes out, how often, under which id and through which dealer |
| `Timers` | heartbeat timers over any run: what each was last set by, when it expires |
| `Rounds` | one round of the broker's loop: what its order of handling gives a client, a copy and a timer |
| `Heartbeats`, `HeartbeatRuns` | liveness slots and copy counters, for one service and in broker runs |
| `Server`, `Vigilance` | a server copy: id tracking, registration cycle, poll set; how long it waits for its broker and all it does in a round |
| `HealthChecker` | the ping/pong/restart loop |
| `Masking`, `System`, `SystemTheorems`, `Answering`, `StaleReplies` | broker, processes and network composed; end-to-end fault masking, that enough votes in time bring the answer, and the run that shows the limit |
| `FreeSystem`, `Provenance` | the composition whenever clients ask: which results a request holds, and what is behind a value |

Objects the program updates in place are classes (`TimespecCell`, `ServiceDatabase`, `RsfBroker`,
`RsfServer`, `Monitor`), and its loops are loops. Each method is proved to follow a function on values, and
the theorems are about that function. Clock readings, messages and the answers of the registrator are
parameters of the events. `exit`, an access outside a vector and a loop that never ends are outcomes of the
broker machine (`Exited`, `OutOfBounds`, `Diverged`) together with what was sent before, not preconditions.

Below, "every run" of the broker, or of the system "whenever clients ask", asks nothing of clients. The other rows
about the system speak of runs in which no client asks while the broker holds a request of it, which is what the
alternation of request and answer on a client's socket gives while deadline passes are aligned.

## What the code does where one might expect otherwise

Each of these is modelled as the code has it; the lemma named states what follows.

- Results are stored under the client alone, so a late reply to an old request counts as a vote on the
  client's next one. For every `nmr` of two or more, without any faulty process, a client can be told the value
  of its previous request (`StaleRepliesMislead`). An answer is honest exactly when at most `nmr / 2` of the
  votes behind it carry another value (`AnswersAreHonest`, `ValuesAreHonest`).
- `delete_request` erases and still advances its index: it is a filter if and only if the client has no two
  neighbouring records (`EraseIsFilterIff`).
- The deadline pass deletes from service number `i`, where `i` is a position in `available_services`. It
  answers and removes exactly the expired requests if and only if each service with an expired request sits
  at the position that is its own number (`SweepIsExactIff`). Elsewhere requests are answered again on every
  pass (`MisplacedIsAnsweredAgain`), or the broker exits. So exactly-once fails: two services that become ready
  out of order are enough for a client that asks once and is answered twice (`AnsweredTwice`), and if it then
  asks again, a request with a majority may be left waiting (`MajorityIsLeftWaiting`). In every run, no decided
  request is ever left waiting if and only if each counted reply finds its client's list guarded: with a verdict
  no two requests of the client are neighbours, without one its first request stays open too (`UndecidedIff`).
  Still every accepted request is answered at the latest by the first pass after its deadline, in every run
  (`EveryRequestIsAnswered`). In runs with lock-step clients requests and answers balance if and only if every
  deadline pass is free of such services (`ConservationIff`).
- `push_registration` sets `ready` only on a second or later registration, so with `nmr` of 1 no service
  ever becomes available (`AvailableIff`).
- `find_registration` finds services that are only partly registered; a request for one stores past the end
  of a vector (`RequestHandledIff`, `FaultIff`).
- The dealer index is given at first registration, the dealer is appended when the service is ready.
  Requests reach the right dealer if and only if the two orders agree (`RoutingIff`, `RequestGoesOutIff`). `ping_server` takes
  the position as one byte, so pings go astray from position 256 on (`PingsGoAstray`).
- A copy that never ponged is written off after one silent check more than LIVENESS, because its slot starts
  at -1 (`WriteOffTiming`). A written-off copy that pongs without registering again revives its slot but not
  the counters, and being written off once more wraps the 8-bit counter (`UnregisteredPongWraps`). The counters
  never wrap if and only if live slots plus accepted re-registrations less revivals by a pong never fall below
  zero, and then they are that number (`NeverWrapsIff`).
- The comment on `vote` promises an index greater than zero; the code also returns zero. The index fits the
  signed byte for every `nmr` a byte can hold, since a majority value must occur in the first half
  (`LeaderIsSmall`).
- `time_add_ms` carries only above 1e9, so `tv_nsec` may be left at exactly 1e9 (`AddMsRange`). All deadlines
  of requests and heartbeats add whole seconds and stay normalized (`WholeSeconds`).
- A server's expected id wraps to zero, which means "take any". What it executes is a consecutive run if and only
  if nothing is delivered after the largest id has been executed (`ConsecutiveIff`), and from then on no id is
  repeated if and only if all it executes lies below the first id it ever saw (`AtMostOnceAfterWrapIff`).
- In the server, pings from the broker postpone the deadline but never reset `ping_loss`: the broker is
  declared dead at the third timeout since registration, however far apart the timeouts are (`ServerRuns`).
- A health checker that restarts a process sends no new ping, so if the pong was lost with the old process it
  restarts the new one every third poll (`LostPongRestartsForever`).

## Model

| member | source | states |
|---|---|---|
| `TimeArithmetic.TimespecCell.TimeCopy` | src/utilities/util.cpp:193-197 | the destination takes the source's value |
| `TimeArithmetic.TimespecCell.TimeAddMs` | src/utilities/util.cpp:205-213 | the struct becomes `AddMs` of its old value and its total grows by exactly ms * 10^6 nanoseconds |
| `TimeArithmetic.TimespecCell.TimeAddNs` | src/utilities/util.cpp:221-228 | the struct becomes `AddNs` of its old value and its total grows by exactly ns |
| `TimeArithmetic.AddMsIsExact` | src/utilities/util.cpp:205-213 | the total in nanoseconds grows by exactly ms * 10^6, for every ms and every start |
| `TimeArithmetic.AddMsRange` | src/utilities/util.cpp:207-212 | from a normalized start tv_nsec ends in 0..10^9, and the result is normalized if and only if the sum is not exactly one second |
| `TimeArithmetic.WholeSeconds` | src/broker/service_database_class.cpp:127-128 | adding whole seconds, as request and heartbeat deadlines do, changes tv_sec alone and keeps the time normalized |
| `TimeArithmetic.AddNsRange` | src/utilities/util.cpp:221-228 | adding nanoseconds is exact, and tv_nsec ends in range exactly when one carry suffices |
| `TimeArithmetic.CompareFollowsTotal` | src/utilities/util.cpp:239-251 | comparing a normalized clock with a deadline follows the order of totals, except at equality with an unnormalized deadline, where it says "passed" |
| `Codec.RoundTrip` | include/communication.hpp:98-119 | reading back as many integers as wanted from a printed list of 32-bit integers gives the list's beginning, negatives and the minimum included |
| `Codec.EightArgumentsFit` | include/rsf_api.hpp:35-38 | any eight 32-bit arguments fit PARAM_SIZE with their terminator |
| `Codec.NineMayOverrun` | include/rsf_api.hpp:35-38 | for every larger number there are arguments that do not fit |
| `Voting.CountVotes` | src/broker/broker_class.cpp:349-355 | each 8-bit counter ends at the number of votes for its value, without overflow |
| `Voting.Vote` | src/broker/broker_class.cpp:344-370 | returns a non-negative index exactly when some value has more than nmr/2 votes, with that value as result, and otherwise -1 with the result untouched |
| `Voting.Leader` | src/broker/broker_class.cpp:357-359 | the scan finds the first index whose value has the most votes |
| `Voting.LeaderIsSmall` | src/broker/broker_class.cpp:365-368 | the index of a majority value is below 128 for every nmr below 256, so the int8_t return is never negative by conversion |
| `Voting.ElectFindsMajority` | src/broker/broker_class.cpp:344-370 | the voter elects a value if and only if the value has the majority, and none if and only if there is none |
| `Voting.MajorityIsUnique` | src/broker/broker_class.cpp:365-368 | at most one value has the majority |
| `Voting.ElectIgnoresOrder` | src/broker/broker_class.cpp:344-370 | permuting the results leaves the outcome unchanged |
| `Voting.FullVerdictOf` | src/broker/broker_class.cpp:365-368 | a majority among all results is the verdict of the single full count |
| `Voting.EarlyVotingIsFullVoting` | src/broker/broker_class.cpp:296-333 | for every list of nmr results, deciding as soon as more than nmr/2 are in gives the verdict of one count over all nmr |
| `Voting.ArrivalOrderIsIrrelevant` | src/broker/broker_class.cpp:296-333 | results that come in another order lead to the same verdict |
| `Voting.DecisionIsFinal` | src/broker/broker_class.cpp:298-332 | a verdict reached early is that of the full count, whatever the missing copies would still say |
| `Voting.UnanimousDecision` | src/broker/broker_class.cpp:298-332 | as long as all results are alike, they are decided exactly when there are more than nmr/2 of them |
| `Requests.EraseKeepsOthers` | src/broker/service_database_class.cpp:153-157 | deleting leaves the records of the other clients unchanged and in order, for every list |
| `Requests.EraseIsFilterIff` | src/broker/service_database_class.cpp:153-157 | deleting removes all the client's records and nothing else if and only if no two of them are neighbours |
| `Requests.EraseOne` | src/broker/service_database_class.cpp:153-157 | where no client has two records, exactly the named one goes |
| `Requests.EraseNone` | src/broker/service_database_class.cpp:153-157 | without a record of the client nothing changes |
| `Requests.LastResultsOf` | src/broker/service_database_class.cpp:216-222 | where no client has two records, the results read are those of the client's record |
| `Requests.NoResults` | src/broker/service_database_class.cpp:181-187 | without a record of the client no result is stored or read |
| `Database.EraseLoop` | src/broker/service_database_class.cpp:153-157 | the loop computes `Erase`, keeps the others, and is a filter if and only if no two of the client's records are neighbours |
| `Database.AddResultLoop` | src/broker/service_database_class.cpp:181-191 | every record of the client gets the result; the return value is the size of its last record's results, -1 without one |
| `Database.ResultLoop` | src/broker/service_database_class.cpp:216-222 | returns the results of the client's last record, none without one |
| `Database.CheckLoop` | src/broker/service_database_class.cpp:259-275 | every slot moves by its own rule, and the count is the number of copies whose slot reaches LIVENESS in this check |
| `Database.ServiceDatabase.FindRegistration` | src/broker/service_database_class.cpp:42-53 | -1 exactly for a service never registered, otherwise its dealer index |
| `Database.ServiceDatabase.PushRegistration` | src/broker/service_database_class.cpp:65-108 | the whole new database, counters, port and ready flag are those of `Register`, refusal included |
| `Database.ServiceDatabase.PushRequest` | src/broker/service_database_class.cpp:115-131 | appends one record without results, due REQUEST_TIMEOUT after the clock; fails on an unknown service |
| `Database.ServiceDatabase.DeleteRequest` | src/broker/service_database_class.cpp:139-158 | the service's list becomes `Erase` of it, all else unchanged; fails on an unknown service |
| `Database.ServiceDatabase.PushResult` | src/broker/service_database_class.cpp:166-192 | the service's list becomes `AddResult` of it, and the number of results is returned; fails on an unknown service |
| `Database.ServiceDatabase.GetResult` | src/broker/service_database_class.cpp:201-223 | the results of the client's last record |
| `Database.ServiceDatabase.RegisterPong` | src/broker/service_database_class.cpp:231-243 | exactly the copy's flag is set; an unknown service and a copy number past the end are reported |
| `Database.ServiceDatabase.CheckPong` | src/broker/service_database_class.cpp:252-280 | the record becomes `CheckRecord` of it: slots, both 8-bit counters and the ping id |
| `Database.ServiceDatabase.GetReliableCopies` | src/broker/service_database_class.cpp:288-301 | the number of copies to send to; unknown services are reported |
| `Database.ServiceDatabase.GetPingId` | src/broker/service_database_class.cpp:309-322 | the ping id; unknown services are reported |
| `Database.ServiceDatabase.GetRequestId` | src/broker/service_database_class.cpp:330-343 | returns the request id and advances it by one modulo 2^32, all else unchanged |
| `Database.ServiceDatabase.GetPendingRequests` | src/broker/service_database_class.cpp:374-389 | a copy of the service's list; unknown services are reported |
| `BrokerMachine.StepKeepsValid` | src/broker/broker_class.cpp:85-120 | every handler that returns keeps field widths, equal lengths of dealers, timers and available services, the poll set three longer, no repeated service, one slot per copy in -1..LIVENESS |
| `BrokerMachine.IndexOf` | src/broker/broker_class.cpp:444-446 | the scan stops at the first occurrence, or at the length if there is none |
| `BrokerMachine.SweepFromKeeps` | src/broker/broker_class.cpp:466-498 | the deadline pass touches nothing but request lists |
| `Broker.RsfBroker.constructor` | src/broker/broker_class.cpp:30-65 | the object starts in the machine's initial state with nothing sent |
| `Broker.RsfBroker.AddDealer` | src/broker/broker_class.cpp:128-138 | dealers and poll set grow by the same socket |
| `Broker.RsfBroker.GetRegistration` | src/broker/broker_class.cpp:201-253 | follows the machine: database, available services, dealer, poll set, timer and the reply with the port |
| `Broker.RsfBroker.GetRequest` | src/broker/broker_class.cpp:145-195 | follows the machine: not-available answer, or one forward per reliable copy under one id, the record and the postponed timer, or the out-of-bounds fault after the forwards have gone out |
| `Broker.RsfBroker.UpdateTimeout` | src/broker/broker_class.cpp:439-451 | sets the timer of the service's position; storing past the end is the fault |
| `Broker.RsfBroker.GetResponse` | src/broker/broker_class.cpp:263-336 | follows the machine: duplicates ignored, result stored, vote, answer and deletion, or the fault with what was sent before it |
| `Broker.RsfBroker.VoteOn` | src/broker/broker_class.cpp:298-332 | the reply handler's branches give `Decide` of the results |
| `Broker.RsfBroker.VoteLate` | src/broker/broker_class.cpp:471-482 | the deadline pass's branches give the verdict on the results so far |
| `Broker.RsfBroker.Conclude` | src/broker/broker_class.cpp:313-316 | one answer goes out and the client's records of the service are erased |
| `Broker.RsfBroker.GetPong` | src/broker/broker_class.cpp:290-294 | follows the machine |
| `Broker.RsfBroker.PingServer` | src/broker/broker_class.cpp:378-405 | one ping per reliable copy of the service at the position taken modulo 256, through the dealer with that number |
| `Broker.RsfBroker.Heartbeat` | src/broker/broker_class.cpp:110-117 | an expired timer checks the pongs, pings and rearms; any other does nothing |
| `Broker.RsfBroker.HandleReplies` | src/broker/broker_class.cpp:105-108 | the loop over all dealers handles the replies polled in dealer order; a dealer added in the round has none |
| `Broker.RsfBroker.HandleTimers` | src/broker/broker_class.cpp:110-117 | the loop over all timers handles the heartbeat of every available service in order |
| `Broker.RsfBroker.SweepPending` | src/broker/broker_class.cpp:469-497 | the inner loop follows the machine, deleting from service number i; where it exits, the answers sent up to then are stated |
| `Broker.RsfBroker.CheckPendingRequests` | src/broker/broker_class.cpp:457-499 | the whole deadline pass follows the machine, the answers sent before an exit included |
| `Broker.RsfBroker.DoRound` | src/broker/broker_class.cpp:87-119 | one round of the loop handles registration, request, replies, heartbeats and deadlines in this order, as the machine does on that event sequence, up to the first fault, with all that was sent until then |
| `Rounds.RequestMeetsRegistration` | src/broker/broker_class.cpp:96-103 | a request found in the round that completes the registration of its service is accepted: the round sends the port, then one forward for each copy through the new dealer |
| `Rounds.ReplyMeetsDeadline` | src/broker/broker_class.cpp:105-118 | a result found in a round counts before its deadlines: a request it decides is answered the verdict, once, even when expired |
| `Rounds.PongMeetsCheck` | src/broker/broker_class.cpp:105-117 | a pong found in a round counts before its checks: the copy is heard of afterwards and the round does not write it off |
| `Rounds.EveryTimerOnce` | src/broker/broker_class.cpp:110-117 | in a round every timer, that of a service made available in it included, is looked at once: its service is checked, and the timer set again, exactly if it has passed, a request found in the round having postponed it before |
| `Rounds.DueIsAnswered` | src/broker/broker_class.cpp:118-118 | in a round whose last clock reading is past the deadline of a waiting request its client is answered |
| `Rounds.RoundSendsInOrder` | src/broker/broker_class.cpp:87-119 | a round sends the reply to the registration, the copies of the request or its refusal, the answers dealer by dealer, the pings timer by timer, the notices of deadlines, in this order and nothing else |
| `Deadlines.SweepEffect` | src/broker/broker_class.cpp:457-499 | the complete effect of the pass: one notice per expired request, removal only at services that sit at their own number, exit exactly when an expired request is found at a position that is no service's number, after exactly the notices up to and including that request |
| `Deadlines.SweepIsExactIff` | src/broker/broker_class.cpp:466-496 | the pass answers and removes exactly the expired requests if and only if each service with one sits at its own number |
| `Deadlines.MisplacedIsAnsweredAgain` | src/broker/broker_class.cpp:494-495 | over any number of passes, an expired request at any other service is answered by each of them and is still there at the end |
| `Deadlines.ExpiredIsPrefix` | src/broker/broker_class.cpp:469-470 | in a list sorted by deadline the expired requests are a prefix and the rest is the remaining suffix |
| `Snapshots.EraseLeaves` | src/broker/service_database_class.cpp:153-157 | deleting takes only records of the client, and leaves some of them if and only if two were neighbours |
| `Snapshots.AnyPass` | src/broker/broker_class.cpp:457-499 | in every state, however many requests of a client wait and wherever: exactly when the pass returns, and then all lists it leaves and all it sends, in terms of the lists before it |
| `Snapshots.SentIff` | src/broker/broker_class.cpp:469-482 | the pass gives a client a verdict if and only if one of its turns finds an expired request of the client with that verdict |
| `Repeats.CountKeepsUndecidedIff` | src/broker/broker_class.cpp:296-334 | for lists with any number of requests of a client: a counted result leaves no decided request waiting if and only if the list is guarded |
| `FreeRuns.UndecidedIff` | src/broker/broker_class.cpp:85-120 | in every run, whatever clients do: all waiting requests are undecided in all states if and only if each counted reply finds its list guarded |
| `FreeRuns.DistinctIff` | src/broker/service_database_class.cpp:115-131 | in every run: no list ever holds two requests of a client if and only if no service accepts a request of a client while it holds one |
| `FreeRuns.SoundIff` | src/broker/broker_class.cpp:85-120 | in every run: all states have one record per client over all services and undecided requests at available services if and only if no request is accepted from a client that waits |
| `FreeRuns.EveryRequestIsAnswered` | src/broker/broker_class.cpp:457-499 | in every run, whatever clients and copies do: the client of an accepted request is answered, on a result for it or by a pass, at the latest by the first pass after the deadline |
| `BrokerRuns.ReplyEffect` | src/broker/broker_class.cpp:296-334 | with one record for the client, a reply either extends it undecided or answers and removes exactly that record |
| `BrokerRuns.UniqueAfterRequestIff` | src/broker/service_database_class.cpp:115-131 | after an accepted request no client waits twice if and only if the broker held no request of the client that asks |
| `BrokerRuns.RunsAreSound` | src/broker/broker_class.cpp:85-120 | in every run, misaligned passes included, in which no request is accepted from a client that waits: valid state, one record per client, requests only at available services, every waiting request undecided |
| `BrokerRuns.SweepSettlesIff` | src/broker/broker_class.cpp:457-499 | a deadline pass lets exactly those it answers stop waiting if and only if it is aligned |
| `BrokerRuns.StepKeepsGoodIff` | src/broker/broker_class.cpp:85-120 | a step keeps asked = answered + waiting if and only if it is no misaligned deadline pass |
| `BrokerRuns.ConservationIff` | src/broker/broker_class.cpp:457-499 | in every run with lock-step clients: asked = answered + waiting in all states if and only if all its deadline passes are aligned |
| `BrokerRuns.RunsAreGood` | src/broker/broker_class.cpp:85-120 | in every run whose clients ask only when all they asked has been answered, with aligned deadline passes: valid state, one record per client over all services, requests only at available services, every waiting request undecided, asked = answered + waiting, and no client asks while the broker holds a request of it |
| `BrokerTheorems.Conservation` | src/broker/broker_class.cpp:145-195 | in lock-step runs with aligned passes, after every step each client's requests equal its answers plus one if it waits, and no client waits twice |
| `BrokerTheorems.ExactlyOnce` | src/broker/broker_class.cpp:313-330 | in such runs a step answers a client at most once, only one that waited or asked in the step, and after it the client waits no longer; without an answer it goes on waiting |
| `BrokerTheorems.WaitingIsUndecided` | src/broker/broker_class.cpp:298-333 | in every run in which no service accepts a request of a client while it holds one of it: a waiting request has fewer than nmr results and no value has the majority among them |
| `BrokerTheorems.SafeIsUndecided` | src/broker/broker_class.cpp:298-333 | the same in every run whose counted replies find their lists guarded, which is the exact condition |
| `BrokerTheorems.RepliesAnswerTheFullCount` | src/broker/broker_class.cpp:296-333 | in every run the answer sent on a reply is the verdict over all nmr results of the client's last request, for every way the missing copies could still answer, and none is sent exactly while there is no verdict |
| `BrokerTheorems.DeadlinesAnswerNotReliable` | src/broker/broker_class.cpp:469-482 | in every run whose counted replies find their lists guarded, a deadline pass answers NOT_RELIABLE only: its AVAILABLE branch is not taken |
| `BrokerTheorems.DeadlineAnswersIff` | src/broker/broker_class.cpp:469-482 | in every run a deadline pass answers a client with a verdict, or takes the AVAILABLE branch with a value, exactly if a turn of it finds an expired request of the client that has it by then |
| `BrokerTheorems.PassesAnswerTheExpired` | src/broker/broker_class.cpp:469-482 | where no request is accepted from a client that waits, a deadline pass answers exactly the expired requests, all NOT_RELIABLE, and removes exactly them if and only if it is aligned |
| `BrokerTheorems.RunsAreOrdered` | src/broker/service_database_class.cpp:127-130 | in every run, under a clock that never runs back every list stays sorted by deadline, through requests, replies and deadlines |
| `BrokerTheorems.DeadlinesCutPrefixes` | src/broker/broker_class.cpp:465-496 | under such a clock, where no request is accepted from a client that waits, the requests a pass answers are, list by list, exactly the prefix whose deadline is before now in nanoseconds, and it cuts the prefix off at the services that sit at their own number and nowhere else |
| `Misplaced.AnsweredTwice` | src/broker/broker_class.cpp:494-495 | for every nmr of two or more there is a run with a lock-step client that asks once, is answered by two passes and is still held by the broker |
| `Misplaced.MajorityIsLeftWaiting` | src/broker/service_database_class.cpp:153-157 | for every nmr of two or more there is a lock-step run in which a request with a majority among its results is left waiting, and a pass answers it SERVICE_AVAILABLE |
| `Registry.RegistryInvariant` | src/broker/service_database_class.cpp:74-105 | in every run: dealer indices number the services 0..next-1 without repeats, port = start port + index, dealer k is bound to the port of the k-th available service, no service is available twice, dealers, timers and available services have equal length, poll set three longer |
| `Registry.AvailableIff` | src/broker/service_database_class.cpp:72-104 | a service is available exactly from its nmr-th registration on, and only if nmr is at least two |
| `Registry.RoutingIff` | src/broker/broker_class.cpp:188-189 | requests for the k-th available service go to its own dealer if and only if its dealer index is k; its pings if and only if k is below 256 |
| `Registry.InOrderStep` | src/broker/broker_class.cpp:232-236 | a step keeps availability in order of first registration if and only if a service it makes available is next in line |
| `Registry.RoutingAgreement` | src/broker/broker_class.cpp:169-193 | in every run whose services became ready in order, the dealer of requests, of pings and of the recorded port coincide, and every dealer and timer index is in bounds |
| `Registry.RequestHandledIff` | src/broker/broker_class.cpp:169-193 | exactly when a request does not store or send out of bounds |
| `Routing.RequestGoesOut` | src/broker/broker_class.cpp:180-193 | with routing in order a request for an available service goes out exactly once for each reliable copy, with the client, the parameters and the next id of the service, through a dealer bound to the port of the service |
| `Routing.RequestGoesOutIff` | src/broker/broker_class.cpp:180-193 | whatever the order, an accepted request goes out once for each reliable copy, and through the dealer of its service if and only if the dealer index is the position |
| `Routing.UnknownIsRefused` | src/broker/broker_class.cpp:169-176 | a request for a service never registered is answered SERVICE_NOT_AVAILABLE and changes nothing |
| `Routing.RequestsAreNumbered` | src/broker/service_database_class.cpp:330-343 | in every run the requests of a service are numbered from zero on, modulo 2^32 |
| `Routing.RequestsInRun` | src/broker/broker_class.cpp:180-193 | in every run with routing in order an accepted request goes out once for each reliable copy, through the dealer of its service, under the number of requests accepted before it |
| `Routing.PingsGoOut` | src/broker/broker_class.cpp:378-405 | an expired timer at one of the first 256 positions sends exactly one ping for each copy that is reliable after the check, under the id of the check, through a dealer bound to the port of the service |
| `Routing.PingsGoAstray` | src/broker/broker_class.cpp:378-405 | from the 257th position on all pings go through the dealer of another service, as many as that one has copies |
| `Routing.PingsAreNumbered` | src/broker/service_database_class.cpp:252-280 | in every run the pings of a service are numbered from zero on, one number for each expired timer of it, modulo 2^32 |
| `Routing.PingsInRun` | src/broker/broker_class.cpp:110-117 | in every run the pings of a check carry the number of checks of the service before it, one for each copy left, through the dealer of the service |
| `Routing.RefusedIff` | src/broker/service_database_class.cpp:74-105 | REG_FAIL is told if and only if the service has nmr copies, which changes nothing; otherwise the reply is the port of the service |
| `Timers.StepSets` | src/broker/broker_class.cpp:439-451 | each event sets exactly the timer of the service that becomes available, is asked, or has its timer expired, to one interval after the clock reading, and no other timer moves |
| `Timers.TimersRunFromLastSet` | src/broker/broker_class.cpp:439-451 | in every run the timer of an available service runs out HEARTBEAT_INTERVAL in nanoseconds after the last clock reading among its becoming available, the requests accepted for it and its own expired heartbeats |
| `Timers.CheckedIff` | src/broker/broker_class.cpp:110-117 | in every run a heartbeat of a position checks its service if and only if its clock reading is later than one interval after the timer was last set |
| `Timers.ChecksLieApart` | src/broker/broker_class.cpp:110-117 | in every run two checks of a service lie more than HEARTBEAT_INTERVAL apart |
| `Registry.FaultIff` | src/broker/broker_class.cpp:85-120 | for every event, exactly when the broker stops, in every state with routing in order that a run reaches |
| `Faults.RequestFaults` | src/broker/broker_class.cpp:180-193 | in any state: exactly when a request stops the broker, that it is an access out of bounds, and that all copies have gone out before when it is the missing timer |
| `Faults.ReplyFaults` | src/broker/broker_class.cpp:296-311 | in any state: an unknown service makes the broker exit, the 256th result of a last request keeps the voter busy for ever, nothing else faults |
| `Faults.PongFaults` | src/broker/service_database_class.cpp:231-243 | in any state: an unknown service makes the broker exit, a copy number past the end is an access out of bounds, nothing else faults |
| `Faults.AnyPassStops` | src/broker/broker_class.cpp:457-499 | in any state: a deadline pass that does not return stops in its first turn that does not, with which fault, and after exactly which answers |
| `Heartbeats.SlotFollowsHistory` | src/broker/service_database_class.cpp:231-280 | in every sequence of pongs, checks and registrations a slot is a function of the copy's own pongs and checks, within -1..LIVENESS |
| `Heartbeats.WriteOffTiming` | src/broker/service_database_class.cpp:259-270 | a check writes a copy off exactly when it ends LIVENESS silent checks in a row, LIVENESS+1 if the copy never ponged |
| `Heartbeats.NotTwiceWithoutPong` | src/broker/service_database_class.cpp:259-275 | between two write-offs of a copy lies a pong of it |
| `Heartbeats.CounterLaw` | src/broker/service_database_class.cpp:97-105 | whatever copies do, the counter minus the live slots is, modulo 256, registrations minus nmr minus revivals |
| `Heartbeats.NeverWrapsIff` | src/broker/service_database_class.cpp:259-278 | whatever copies do: no check takes more off the counters than there is if and only if live slots plus accepted re-registrations less revivals never fall below zero, and then both counters are that number, at most nmr |
| `Heartbeats.UnregisteredPongWraps` | src/broker/service_database_class.cpp:277-278 | a concrete run in which a copy pongs without registering again and the counter of reliable copies wraps to 255 |
| `Heartbeats.CopyAccounting` | src/broker/service_database_class.cpp:252-280 | if only written-off copies register again, once, before they pong: both counters equal the live slots plus those awaiting a pong, at most nmr, no check takes off more than there is, and no such registration is refused |
| `HeartbeatRuns.SlotsFollowBeats` | src/broker/broker_class.cpp:110-117 | in every run of the broker, slots and counters of a service are what its pongs, checks and registrations make of a fresh record |
| `HeartbeatRuns.BrokerCopyAccounting` | src/broker/broker_class.cpp:186-189 | copy accounting carried to every run of the broker: both counters are live slots plus those awaiting a pong, no check takes off more than there is, and a written-off copy that registers again is told the port and never REG_FAIL |
| `HeartbeatRuns.BrokerWrapsIff` | src/broker/service_database_class.cpp:277-278 | in every run of the broker, whatever copies do, an expired timer wraps the counters exactly if it is the first to make the headcount negative; until then they are the headcount |
| `HeartbeatRuns.BrokerWriteOff` | src/broker/broker_class.cpp:111-113 | in every run an expired timer writes off exactly the copies silent for their full patience |
| `Server.ExecutedIsConsecutive` | src/server/server_class.cpp:107-116 | whatever ids below the largest are delivered, those executed are a consecutive ascending run from the first one seen |
| `Server.ConsecutiveIff` | src/server/server_class.cpp:107-129 | whatever ids are delivered, those executed are a consecutive run from the first one seen if and only if nothing is delivered after the largest id has been executed |
| `Server.AtMostOnce` | src/server/server_class.cpp:107-129 | a process executes no id twice as long as nothing is delivered after the largest id has been executed |
| `Server.AtMostOnceAfterWrapIff` | src/server/server_class.cpp:107-116 | once the largest id has been executed, no id is executed twice if and only if all that is executed from then on lies below the first id seen |
| `Server.WrapRepeats` | src/server/server_class.cpp:107-116 | the smallest case of a repeated id: the largest is executed each time it comes |
| `Server.GaplessIsExecutedInFull` | src/server/server_class.cpp:107-116 | a stream without gaps that never goes back is executed once per id, first to last |
| `Server.GapIsFinal` | src/server/server_class.cpp:107-129 | after one gap in an ascending stream nothing more is executed |
| `Server.ServerRuns` | src/server/server_class.cpp:95-197 | in every run the poll set has its second entry exactly while the copy is registered, and the broker is declared dead exactly at the third timeout since registration |
| `Server.LifeFollowsTracking` | src/server/server_class.cpp:95-197 | over a whole life with any number of registrations, what is executed is what id tracking makes of all ids taken in |
| `Vigilance.LifeKeepsVigil` | src/server/server_class.cpp:95-197 | in every life the copy is registered, and its deadline lies 2500 ms after the last of joining, taking a message and missing a ping, exactly as a reference that reads the turns says |
| `Vigilance.RoundInLife` | src/server/server_class.cpp:95-197 | in every life all that a round does, in order; a miss is logged if and only if the copy is registered when the round looks at its deadline and its clock reading is later than 2500 ms after the last of joining, taking a message and missing a ping; the third miss since joining declares the broker dead |
| `Vigilance.StopsIff` | src/server/server_class.cpp:174-178 | a life ends exactly in a round that finds the copy away from its broker and its registration refused |
| `Vigilance.HeardIsNeverDead` | src/server/server_class.cpp:100-105 | a copy that takes a message at least every 2500 ms never misses a ping and never declares its broker dead |
| `Vigilance.PingsFollowTracking` | src/server/server_class.cpp:132-142 | over a whole life the ping id expected is what id tracking makes of all pings taken in |
| `Server.RsfServer.TakeRequest` | src/server/server_class.cpp:107-129 | the expected id advances and the request is executed, or a duplicate is reported |
| `Server.RsfServer.TakePing` | src/server/server_class.cpp:132-142 | the expected ping id advances on a match, and a pong goes out in any case |
| `Server.RsfServer.DoServe` | src/server/server_class.cpp:100-144 | serving a message follows the machine: deadline, id, reply |
| `Server.RsfServer.DoJoin` | src/server/server_class.cpp:152-183 | registering follows the machine: poll set, ping loss, deadline, or the process stops on a refusal |
| `Server.RsfServer.DoWatch` | src/server/server_class.cpp:185-196 | a passed deadline counts a miss, and the third drops the socket and the registration |
| `Server.RsfServer.DoRound` | src/server/server_class.cpp:95-197 | one round of the loop follows the machine in the source's order |
| `HealthChecker.Monitor.DoPoll` | src/health_checker_server/health_checker_server_class.cpp:55-86 | one poll follows the machine, and reports a restart exactly when one is made |
| `HealthChecker.RunInvariant` | src/health_checker_server/health_checker_server_class.cpp:50-86 | in every run at most one ping is unanswered, hb_liveness is in 1..3, and it is fixed by the number of quiet polls |
| `HealthChecker.RestartIff` | src/health_checker_broker/health_checker_broker_class.cpp:47-77 | a poll restarts the process exactly when it completes a group of three quiet polls in a row |
| `HealthChecker.RestartNeedsThreePolls` | src/health_checker_broker/health_checker_broker_class.cpp:42-72 | no restart before the third poll |
| `HealthChecker.RestartNeedsThreeSilentPolls` | src/health_checker_server/health_checker_server_class.cpp:70-81 | every restart is preceded by three timeouts in a row with a ping unanswered at each, and by no other restart among them |
| `HealthChecker.LostPongRestartsForever` | src/health_checker_server/health_checker_server_class.cpp:77-81 | with the outstanding pong lost, a restart follows at every third poll and no ping is ever sent again |
| `Masking.MajorityIsHonest` | src/broker/broker_class.cpp:365-368 | while at most nmr/2 votes are wrong or stale, only the honest value can have the majority |
| `Masking.HonestIffFewWrong` | src/broker/broker_class.cpp:365-368 | an elected value is the honest one if and only if at most nmr/2 votes carry another value |
| `Masking.HonestMajorityWins` | src/broker/broker_class.cpp:298-316 | once the good votes exceed nmr/2 the honest value is elected |
| `Masking.BadIsStaleOrFaulty` | src/broker/service_database_class.cpp:181-186 | bad votes are at most the stale ones plus the distinct faulty processes that voted on the request |
| `Masking.MaskingIsTight` | src/broker/service_database_class.cpp:181-186 | for every nmr, one bad vote more than nmr/2 can bring the wrong value: there are nmr ballots, no two from one process and the bad ones all for an earlier request, on which early voting gives it |
| `System.ForwardsAgree` | src/broker/broker_class.cpp:180-191 | all copies of a forwarded request are the same message under one id that no request of the service had before |
| `System.ReadsFirstArgument` | src/server/server_class.cpp:268-273 | the argument a copy parses is the client's first argument |
| `System.SystemRunsAreOk` | src/broker/service_database_class.cpp:166-192 | in every run of the composed system: parcels belong to accepted requests, each result in flight stems from one execution not yet counted, records hold exactly the values of the votes counted |
| `SystemTheorems.IdsIncrease` | src/broker/service_database_class.cpp:342-342 | in every run, whenever clients ask, of two requests accepted for a service every copy of the later carries the larger id |
| `SystemTheorems.OneVotePerCopy` | src/server/server_class.cpp:106-129 | in every run, whenever clients ask, a process brings the broker at most one result per request id, however often the request is delivered |
| `SystemTheorems.OnlyRepliesBringValues` | src/broker/broker_class.cpp:263-336 | in every run only a counted reply makes the broker tell a client a value, and it is the client of that reply |
| `SystemTheorems.ArrivalInRun` | src/broker/broker_class.cpp:296-334 | in every run what a counted reply makes the broker send is the verdict on the votes behind it, one per process and id, each an honest result or from a faulty process |
| `SystemTheorems.AnswersAreHonest` | src/broker/broker_class.cpp:263-370 | in every run a SERVICE_AVAILABLE answer with at most nmr/2 wrong or stale votes carries the honest value of the request the client waits for; counting only votes with another value, if and only if |
| `SystemTheorems.FaultyMinorityIsMasked` | src/broker/broker_class.cpp:263-370 | the same with the bound in stale votes plus faulty processes |
| `SystemTheorems.HonestMajorityIsAnswered` | src/broker/broker_class.cpp:298-316 | the step in which the good votes behind a counted reply exceed nmr/2 answers the honest value, in particular the step that brings the nmr-th vote with at most (nmr-1)/2 bad |
| `Answering.FirstAnswerIsVerdict` | src/broker/broker_class.cpp:296-333 | in every run the first answer a client gets to an accepted request before its deadline is the verdict on all results that have arrived for it by then |
| `Answering.HonestValueIsAnswered` | src/broker/broker_class.cpp:263-336 | in every run: if of the results that arrive for an accepted request before a pass after its deadline at most (nmr-1)/2 are bad and more than nmr/2 good, the first answer the client gets is SERVICE_AVAILABLE with the honest value, and it gets it in that time |
| `Answering.AllVotesInTimeAreAnswered` | src/broker/broker_class.cpp:263-336 | the same when all nmr results arrive in time with at most (nmr-1)/2 of them bad |
| `Answering.FaultyMinorityIsOutvoted` | src/broker/broker_class.cpp:263-336 | the same with the bound in stale results plus distinct faulty processes |
| `Answering.EveryRequestIsConcluded` | src/broker/broker_class.cpp:457-499 | in every run the client of an accepted request is answered at the latest by the first pass after the deadline; its first answer is the verdict on all results arrived by then, or one NOT_RELIABLE in that pass |
| `FreeSystem.FreeRunsAreOk` | src/broker/service_database_class.cpp:166-192 | in every run, whenever clients ask: parcels belong to accepted requests, each result in flight stems from one execution not yet counted |
| `Provenance.ResultsAreArrivals` | src/broker/service_database_class.cpp:181-186 | in every run, whenever clients ask: a waiting request holds exactly the results that have arrived for its client at the service since it was asked |
| `Provenance.ValuesAreHonest` | src/broker/broker_class.cpp:263-370 | in every run, whenever clients ask and whatever passes do: a value a client is told is elected by the results that arrived since an accepted request of it; with at most nmr/2 of them wrong or stale, or stale or from faulty processes, it is the honest value, and exactly so counting other values among at most nmr results |
| `StaleReplies.StaleRepliesMislead` | src/broker/service_database_class.cpp:181-186 | for every nmr of two or more, any service body and any two arguments there is a run without faulty processes in which the client that asks the second is told the value of the first |

## Left out

- ZeroMQ contexts, sockets, frames and options: the network is a multiset of messages that may be delayed, reordered and lost, and a poll is the set of messages it finds. That a send fails or blocks is not modelled.
- The alternation of request and answer on the client's socket is not enforced. `IsFreeRun` and `IsFreeSystemRun` ask nothing of clients. `IsRun` (no request accepted from a client that waits; `SoundIff` says what that amounts to), `IsSystemRun` (no client asks while the broker holds a request of it) and `IsLockStepRun` (a client asks only when all it asked has been answered) are hypotheses of the theorems that name them. Without misaligned passes the last gives the others (`RunsAreGood`); with them it does not (`MajorityIsLeftWaiting`).
- BrokerRuns.RunsAreGood: takes aligned deadline passes as given, as do `Conservation` and `ExactlyOnce`, since by `ConservationIff` they are false exactly without them.
- Faulty processes in `System` send wrong values but follow the id protocol, and a process is one incarnation of a copy: a restarted copy counts as another process.
- `System` takes the 32-bit request ids as not yet exhausted; `WrapRepeats` shows what happens at the end.
- Service bodies in src/server/service.cpp are an arbitrary function of service and first argument; the busy wait and the detached thread appear as a reply that is sent at any later time.
- Which of a service's copies a dealer socket hands a forwarded request to: any process may receive any request in flight.
- The composition does not tie registrations, pongs and heartbeats of the broker to the processes; they are events that may happen at any time.
- The result field of a NOT_RELIABLE answer is uninitialised in the program and is not part of a verdict.
- Byte order, struct copying, the owner's signature in a registration, logging, printing and command lines.
- Process control: a restart is an event; killing, forking and executing are not modelled. The two health checkers are one class with the poll interval as a constant.
- The health checker's pings to broker and server: answering them has no effect on protocol state.
- The string that `serialize` appends to and the stream that `deserialize` consumes are passed and returned as values in `Codec`.
- Parsing of parameter strings outside the C locale, and arguments of other types than `int32_t`.
- A parameter list longer than PARAM_SIZE overruns the buffer in the client; `NineMayOverrun` shows that such lists exist, what follows is not modelled.
