# Harbr-Router: a verified model of routing, sessions, pools and accounting

This project models the stateful core of Harbr-Router, a modular reverse proxy, and proves what that code keeps over
every input and every run. `dafny verify dfyconfig.toml` checks all of it.

- **Load balancer** (`Upstreams`, `VirtualNodes`, `HashRing`, `RingStability`, `RingShare`, `RoundRobin`,
  `LeastConnections`, `LeastConnectionsRaces`, `HealthAware`, `HealthAwareSelection`, `LatencyAverage`, `LatencyRaces`,
  `Routing`, `SelectionLaws`, `Shares`, `RouterSteps`). `Router`, `ConsistentHashRing`, `UpstreamInfo` and
  `UpstreamStats` are classes whose methods update their fields as the source does. Each selection is tied to a function
  of one reading of the list (`UpstreamView`), and the theorems are about those functions; `SelectionLaws` and
  `HealthAwareSelection` say what each strategy selects in terms of the list, the ticket and the key alone. The hash of
  text keys is an arbitrary fixed function into 64 bits. Collisions are allowed unless a theorem excludes them.
  `RouterSteps` takes the router apart into steps, with list changes, health reports, ring rebuilds and selections
  interleaved; `LeastConnectionsRaces` and `LatencyRaces` do the same for the loads and the latency average.
- **Proxies at work** (`Serving`). One HTTP request, one TCP stream and one UDP packet served through a router: what
  each records on its upstream, and that the router stays valid.
- **UDP sessions** (`UdpSessions`, `UdpStickiness`, `UdpEffects`, `UdpProxies`, `UdpCounters`). A timed state machine in
  which packet handlers and cleanups run one at a time and a listener's touch and its later check are separate steps; a
  class that implements it on shared session objects; and a second machine in which every table access and every counter
  update is a step of its own.
- **TCP** (`TcpPool`, `TcpAccounting`). The bounded, expiring connection pools, and all counters under every
  interleaving of connection tasks.
- **HTTP** (`HttpMetrics`, `HttpAccounting`, `SessionKey`). The sliding window of durations, the status counts, request
  accounting under every interleaving, and the cookie scanner.
- **Configuration** (`Config`, `ValidatedRouting`). Validation, the error it reports, and what an accepted instance
  gives the router.

- **Shared** (`Machine`, `Arithmetic`, `Sorting`, `Sums`, `Runs`). Machine integers, division, a stable sort, sums over
  lists, and induction over runs.

Integers wrap at 64 bits where the source's atomics and release-mode arithmetic do (`WrapAdd`, `NextAverage`,
`Ticket`); floating point is modelled by exact reals. Clock readings, results of sends and connects, and the router's
answer to the UDP handler are parameters, so every theorem holds for all of them; `Serving.ServePacket` puts the
router's own answer in.

## Results that differ from what one might expect

- Reordering the configured upstreams can change where keys go. It never does exactly when upstreams of different names
  share no slot of the ring (`RingStability.OrderIrrelevantIff`). Adding, removing or disabling upstreams needs no such
  condition.
- Weighted round-robin gives every upstream exactly its weight in every round, also across the wrap of its counter,
  exactly when the total weight divides 2^64 or only one upstream is available (`RoundRobin.ExactAcrossWrapIff`). With
  weights one and two, the round that starts with the last ticket gives the lighter upstream two picks of three
  (`RoundRobin.LighterGetsMoreAtWrap`).
- A UDP listener that takes longer than the session timeout between touching its session and checking it removes
  whatever the table holds for its client and moves the counters even when that is nothing. `sessions_created -
  sessions_expired` can then go below zero (`UdpStickiness.LateListenerUnderflows`). It stays in range exactly while such
  expiries do not outnumber the table (`UdpSessions.SubtractionInRangeIff`), and the reported error rate lies between
  zero and one exactly then (`UdpProxies.UdpProxy.ErrorRate`).
- Such a listener can also take away a newer, live session of its client, whose next packet may then go to another
  upstream although all packets of that session followed each other within the timeout
  (`UdpStickiness.LateCheckMovesClient`). A check leaves the next packet with its upstream exactly when it is not such a
  one (`UdpStickiness.StickyAfterCheckIff`).
- A consistent-hashing router can select nothing although its one listed upstream is healthy and no list is being
  installed: the upstream's recovery has been written and the ring not yet rebuilt
  (`RouterSteps.HealthyButNotSelected`). With no list waiting for its ring, none is selected exactly when the last
  rebuild found none available (`RouterSteps.NoneIff`); in any state every key gets an upstream exactly when that rebuild
  found one and the current list has a place for every owner of a slot (`RouterSteps.AlwaysSelectsIff`), and every
  selected upstream is available exactly when the entry now at each owner's place is (`RouterSteps.NeverSelectsDownIff`).
- Least-connections does not keep the loads within one of each other when connections are selected side by side: with m
  of them between selection and counting the gap can grow to m (`LeastConnectionsRaces.GapIsReached`), and no further
  (`LeastConnectionsRaces.GapWithInFlight`).
- Only TCP counts connections. Under HTTP and UDP traffic alone least-connections repeats one selection for as long as
  health is fixed (`Shares.UncountedTrafficRepeats`, with the load clauses of `Serving.ProcessRequest` and
  `Serving.ServePacket`).
- Two packets of one new client handled side by side leave one table entry and an active count of two, and can go to two
  upstreams (`UdpCounters.RaceDrifts`). Whenever no update is in flight table and count agree exactly when replaced
  entries and vain removals have cancelled out (`UdpCounters.QuiescentCounters`). While its entry is not removed, a
  client's packets can part ways exactly when two of them create a session side by side
  (`UdpCounters.OneUpstreamUnlessOverlap`, `UdpCounters.OverlapCanDiverge`).
- Health-aware selection draws its point from the ticket counter, which moves by one per selection. Among k candidates the
  first 2^64 / k selections therefore all take the top one (`HealthAware.TopTakesTheFirstTickets`); the shares of
  `HealthAware.ShareOfTickets` are those of the whole counter range.
- The moving latency average never reaches a larger constant sample from below: it stops up to seven nanoseconds short
  (`LatencyAverage.FixpointIff`).

## Model

| member | source | states |
|---|---|---|
| Upstreams.UpstreamStats.RecordSuccess | src/routing.rs:110-126 | counts the request and the response and moves the average by one sample, cut to 64 bits |
| Upstreams.UpstreamStats.RecordFailure | src/routing.rs:129-133 | counts the request and the failure and touches nothing else |
| Upstreams.UpstreamStats.IncrementConnections | src/routing.rs:136-138 | adds one connection, wrapping, and reports the new count |
| Upstreams.UpstreamStats.DecrementConnections | src/routing.rs:141-143 | gives one connection back, wrapping, while the reported count saturates at zero |
| Upstreams.UpstreamInfo.constructor | src/routing.rs:165-174 | a new upstream has unknown health and empty statistics |
| Upstreams.UpstreamInfo.SetHealthState | src/routing.rs:203-218 | sets the state; Healthy clears the failure count, Unhealthy adds one, Unknown leaves it |
| VirtualNodes.VirtualKeyInjective | src/routing.rs:247-248 | "name:number" determines name and number, even when names contain colons |
| HashRing.ConsistentHashRing.Update | src/routing.rs:238-256 | after the nested loops and the sort, the map's keys are exactly the claimed slots, each owned by its last claimant; the array is sorted, holds the same slots, and has one entry per virtual node |
| HashRing.ConsistentHashRing.PlaceUpstream | src/routing.rs:243-252 | one outer turn skips an unavailable upstream and otherwise enters all its virtual nodes |
| HashRing.BinarySearch | src/routing.rs:267-269 | finds some match if there is one, else the insertion point |
| HashRing.SearchFindsNearest | src/routing.rs:266-278 | for any match the search may return among duplicates, the slot read is the clockwise nearest of the array |
| HashRing.ConsistentHashRing.GetUpstream | src/routing.rs:259-280 | returns the owner of the slot first met walking clockwise from the key's hash, and none only for an empty ring |
| HashRing.RouteUnique | src/routing.rs:259-280 | the clockwise owner is unique |
| HashRing.SuccessorMeaning | src/routing.rs:266-275 | the slot met first is the least at or above the key's hash, or the least of all when there is none so high |
| HashRing.RepresentsDependsOnRing | src/routing.rs:238-256 | a ring built for one reading of the list is the ring for every other that agrees in names and availability |
| RingStability.RouteNoneIff | src/routing.rs:259-262 | a key is routed nowhere exactly when no upstream is available |
| RingStability.WithdrawalKeepsOthers | src/routing.rs:238-280 | withdrawing any upstreams leaves every key of a remaining one in place, also with colliding hashes |
| RingStability.HealthChangeDisruption | src/routing.rs:441-451 | taking one upstream down moves only its own keys; bringing one up moves keys only to it |
| RingStability.InsertionMovesOnlyToNew | src/routing.rs:302-317 | adding one config anywhere in the list moves keys only to the added name, although indices shift |
| RingStability.PermutationKeepsName | src/routing.rs:302-317 | without name collisions any permutation of the list routes every key to the same name |
| RingStability.CollisionMakesOrderMatter | src/routing.rs:247-252 | with a collision between names, some permutation moves some key |
| RingStability.OrderIrrelevantIff | src/routing.rs:302-317 | order is irrelevant to routing by name if and only if no two names share a slot |
| RingShare.EqualShares | src/routing.rs:247-252 | with unique names and no colliding virtual keys, each available upstream owns exactly the slots of its own virtual nodes |
| RingShare.RingSize | src/routing.rs:242-255 | then map and array have one entry per virtual node of every available upstream |
| RoundRobin.ExpandedIsPrefixSumChoice | src/routing.rs:357-364 | the expanded list agrees with choosing by prefix sums of the weights raised to at least one |
| RoundRobin.ExactShare | src/routing.rs:356-372 | any n consecutive tickets without a wrap give each upstream between floor(n/W) and ceil(n/W) times its weight, exactly n/W times when W divides n |
| RoundRobin.ExactAcrossWrapIff | src/routing.rs:356-372 | every round of W tickets, also across the counter's wrap, gives each upstream exactly its weight if and only if W divides 2^64 or only one upstream is available |
| RoundRobin.LighterGetsMoreAtWrap | src/routing.rs:370-370 | weights one and two: the round starting with the last ticket gives the lighter upstream two picks and the heavier one |
| RoundRobin.FairAcrossWrapIff | src/routing.rs:342-353 | plain round-robin takes each available upstream once in every round, also across the wrap, if and only if their number divides 2^64 |
| RoundRobin.UnfairAcrossWrap | src/routing.rs:342-353 | otherwise the round starting at the last ticket passes over the last available upstream |
| LeastConnections.SelectLeastConnections | src/routing.rs:375-380 | the first of the available upstreams with fewest connections, and none exactly when none is available |
| LeastConnections.GapStaysBounded | src/routing.rs:375-380 | over any number of connections, each counted before the next is selected, the gap never exceeds the larger of its starting value and one |
| LeastConnections.SelectionDependsOnLoads | src/routing.rs:375-380 | the selection depends on availability and connection counts only |
| LeastConnectionsRaces.GapWithInFlight | src/proxy/tcp.rs:151-286 | under every interleaving of selections reading the loads one by one, dials that come up or fail, and increments, with at most m connections in between, the gap never exceeds the larger of its starting value and m |
| LeastConnectionsRaces.GapIsReached | src/proxy/tcp.rs:151-286 | for every m a run from equal loads with at most m in between that ends in a gap of m |
| LeastConnectionsRaces.UndisturbedScan | src/routing.rs:375-380 | a scan during which no load changes chooses what the selection on one reading chooses |
| LeastConnections.RefinesRoundRobin | src/routing.rs:375-380 | from equal loads pick n is position n mod k, and counts are n/k, plus one for the first n mod k |
| LatencyAverage.ExactMeanIff | src/routing.rs:118-122 | a step computes the rounded-down mean if and only if the sum fits in 64 bits |
| LatencyAverage.BetweenSamples | src/routing.rs:114-124 | with 8 times the bound below 2^64 the average of any nonempty run lies between its least and greatest sample, one recorder at a time |
| LatencyRaces.AlwaysBetweenSamples | src/routing.rs:114-124 | the same under every interleaving of recorders, load and store being separate steps: the stored average lies between least and greatest sample, or is the initial zero and none has stored |
| LatencyRaces.UndisturbedRecorder | src/routing.rs:114-124 | a recorder that nobody disturbs takes the step of the moving average |
| LatencyAverage.StepTowards | src/routing.rs:118-122 | one step towards a constant sample never crosses it, and moves unless within seven below it |
| LatencyAverage.FixpointIff | src/routing.rs:118-122 | a constant sample leaves the average alone exactly when it equals the sample or is at most seven below it |
| LatencyAverage.Converges | src/routing.rs:118-124 | after as many equal samples as the distance, the average is exactly the sample from above and within seven from below |
| HealthAware.HealthScoreInRange | src/routing.rs:176-200 | the health score lies between zero and one, for responses that answer requests |
| HealthAware.HealthScoreMonotone | src/routing.rs:176-200 | higher is better: at equal success rates the healthier and faster upstream never scores lower, strictly higher for a better state |
| HealthAware.PositiveScoreIff | src/routing.rs:177-200 | the score of an available upstream is positive exactly for positive weight and no requests yet or at least one success |
| HealthAware.RankedMeaning | src/routing.rs:394-410 | the candidates are exactly those upstreams, highest score first, ties in list order |
| HealthAware.PickByScore | src/routing.rs:413-424 | the decrementing loop, fallback included, computes the first position whose cumulative score reaches the target |
| HealthAware.PickMeaning | src/routing.rs:412-424 | every ticket reaches some cumulative score, so the fallback is unreachable and the pick is the first to reach it |
| HealthAware.PickMonotone | src/routing.rs:414-421 | a larger counter never picks a higher-ranked candidate |
| HealthAware.ShareOfTickets | src/routing.rs:412-421 | over the whole counter range each candidate's picks differ from its score share of the largest ticket by less than one, plus ticket zero for the top one |
| HealthAware.TopTakesTheFirstTickets | src/routing.rs:413-421 | among k candidates every ticket below 2^64 / k takes the top one |
| HealthAwareSelection.SelectionIsFirstReached | src/routing.rs:393-425 | the strategy selects i if and only if i is the first eligible upstream in rank whose scores, gathered from the top down, reach the ticket's share of all scores |
| HealthAwareSelection.LaterTicketsGoDown | src/routing.rs:413-421 | a larger ticket never selects an upstream that ranks before |
| HealthAwareSelection.SelectionShares | src/routing.rs:412-421 | of all 2^64 tickets each eligible upstream is selected by its share of the scores, off by less than one, plus ticket zero for the top one |
| HealthAwareSelection.FirstTicketsSelectTop | src/routing.rs:413-421 | with k eligible upstreams every ticket below 2^64 / k selects the top one |
| HealthAwareSelection.ScoreValue | src/routing.rs:146-200 | the score in figures: health factor, latency factor, weight and responses per request, one before the first request |
| HealthAwareSelection.BetterRecordScoresHigher | src/routing.rs:146-200 | of upstreams alike but for their record, the one answering the larger part never scores lower, and higher if it has weight |
| Routing.SelectionSound | src/routing.rs:320-339 | under every strategy the selected upstream is listed and available, and none is selected exactly when none is available, or for HealthAware none eligible |
| SelectionLaws.RoundRobinIff | src/routing.rs:342-353 | round-robin selects exactly the upstream that is up and has before it as many others up as the ticket leaves over when divided by their number |
| SelectionLaws.WeightedRoundRobinIff | src/routing.rs:356-372 | weighted round-robin selects exactly the upstream on whose stretch of the weights the ticket's remainder falls |
| SelectionLaws.LeastConnectionsIff | src/routing.rs:375-380 | least-connections selects exactly the first of those up with the fewest connections |
| SelectionLaws.KeyedIff | src/routing.rs:331-333 | consistent hashing selects for a session key exactly the upstream its own hash routes to, whatever the ticket |
| SelectionLaws.UnkeyedIff | src/routing.rs:334-335 | without a key it selects as round-robin does |
| SelectionLaws.OwnNodeComesHome | src/routing.rs:247-251 | a key that is a virtual node "name:number" goes to that upstream unless a later one claims the slot |
| SelectionLaws.KeyedDisruption | src/routing.rs:441-451 | another health state for one upstream moves only keys to it or away from it |
| SelectionLaws.KeyedOrderIff | src/routing.rs:302-317 | no reordering changes the name selected for any key if and only if no two names share a slot |
| SelectionLaws.KeyedInsertion | src/routing.rs:302-317 | adding one config anywhere moves keys only to the added name |
| SelectionLaws.KeyedAnswerIff | src/routing.rs:383-390 | a valid router answers a key with the listed upstream it routes to and no other |
| SelectionLaws.LeastConnectionsAnswer | src/routing.rs:375-380 | under least-connections a valid router answers with an upstream that is up and none up has fewer active connections |
| Routing.FirstNamed | src/routing.rs:433-438 | the first upstream of that name, or none if there is none |
| Routing.TrafficDoesNotSteer | src/routing.rs:342-390 | recorded traffic changes no selection of the round-robin strategies or of consistent hashing |
| Routing.Router.TrafficKeepsValid | src/routing.rs:110-143 | whatever statistics change between the router's own calls, its ring stays the one built from scratch |
| Routing.HealthReportMovesOnlyItsName | src/routing.rs:441-451 | a health report moves keys only to or away from the name it is about |
| Routing.Router.constructor | src/routing.rs:292-299 | an empty router has a fresh ring of 150 virtual nodes per upstream and counter zero |
| Routing.Router.UpdateUpstreams | src/routing.rs:302-317 | installs the configured upstreams in order, all new and of unknown health, and leaves a ring built for just this list |
| Routing.Router.SelectUpstream | src/routing.rs:320-339 | hands out the object at the strategy's position, listed and not unhealthy; except under HealthAware none only if all are unhealthy; the counter moves by one exactly when a ticket was used |
| Routing.Router.SelectRoundRobin | src/routing.rs:342-353 | the available upstream the ticket stands for |
| Routing.Router.SelectWeightedRoundRobin | src/routing.rs:356-372 | the nested loops build the expanded list of upstreams, and the ticket picks from it |
| Routing.Router.SelectConsistentHash | src/routing.rs:383-390 | the route of the key in the ring built from scratch |
| Routing.Router.SelectHealthAware | src/routing.rs:393-425 | the candidate the ticket's point falls on |
| Routing.Router.UpdateUpstreamHealth | src/routing.rs:441-451 | the first upstream of that name gets the state and the failure count that goes with it, every other keeps its own, and the ring is built for the new state |
| Shares.ExpansionDependsOnWeights | src/routing.rs:357-364 | the expanded list depends on availability and weights only |
| Shares.WeightedShare | src/routing.rs:356-372 | the exact share, stated on consecutive selections of the weighted strategy with any traffic recorded in between |
| Shares.RoundIsExactIff | src/routing.rs:356-372 | a full round of such selections gives each upstream exactly its weight from every starting ticket if and only if W divides 2^64 or only one upstream is available |
| Shares.PlainIsWeightedByOne | src/routing.rs:342-353 | plain round-robin selects what weighted round-robin selects when all weights are one |
| Shares.LeastConnectionsIsRoundRobin | src/routing.rs:375-380 | from equal loads the least-connections strategy selects what round-robin selects |
| Shares.UncountedTrafficRepeats | src/routing.rs:375-380 | over any traffic that moves neither availability nor connection counts, every least-connections selection is the first one's |
| RouterSteps.SelectedIsListed | src/routing.rs:302-451 | under every interleaving a selected upstream is in the current list, and unavailable only while the rebuild for a health report about it is still to come |
| RouterSteps.NoneOnlyWhilePending | src/routing.rs:302-451 | a bound in time: none is selected despite an available one only while the rebuild for a new list is to come, or rebuilds for every upstream available now |
| RouterSteps.NoneIff | src/routing.rs:259-262 | with no list waiting for its ring, none is selected if and only if the last rebuild found none available; despite an available one if and only if one is available now in addition |
| RouterSteps.AlwaysSelectsIff | src/routing.rs:383-390 | in any state every session key gets an upstream if and only if the last rebuild found one available and the current list has a place for every owner of a slot |
| RouterSteps.NeverSelectsDownIff | src/routing.rs:383-390 | in any state every selected upstream is available if and only if the entry now at each slot owner's place is |
| RouterSteps.SettledSelectionIsFresh | src/routing.rs:302-451 | with no rebuild to come, the selection is that of a ring built this moment |
| RouterSteps.SelectsFreshIff | src/routing.rs:302-451 | with no list waiting for its ring, every session key is routed as by a ring built this moment if and only if that ring has the same owner for every slot |
| RouterSteps.HealthyButNotSelected | src/routing.rs:441-451 | a concrete run in which the only upstream is healthy, no list is being installed, and none is selected |
| Serving.RecordOutcome | src/routing.rs:110-133 | one outcome is recorded on one upstream, listed or not, and shows in what the router reads of it; no load moves and the router stays valid |
| Serving.ProcessRequest | src/proxy/http.rs:139-180 | the router then reads the old list with the outcome recorded once on its choice if the request was sent, and nothing else changed; it stays valid |
| Serving.StartStream | src/proxy/tcp.rs:151-286 | the router then reads the old list with one connection more at its choice if it got connected; under least-connections that is the load theory's step |
| Serving.StreamIsConnect | src/routing.rs:136-138 | selecting by least connections and counting one is the step of `GapStaysBounded` and `RefinesRoundRobin` |
| Serving.FinishStream | src/proxy/tcp.rs:299-313 | the router then reads one connection fewer there and the outcome recorded once |
| Serving.FewerUndoesMore | src/routing.rs:136-143 | giving a connection back undoes counting it, also across the wrap |
| Serving.ServePacket | src/proxy/udp.rs:141-228 | the machine's packet step with the router's own choice, asked for only for a client without a live session; a failed send is one record on the session's upstream, nothing else is recorded, and no load moves |
| Config.FindRepeat | src/config.rs:578-583 | filling the set finds the first repeated key, and none exactly when all are distinct |
| Config.ValidateInstance | src/config.rs:623-654 | accepts exactly instances with a name, upstreams, unique upstream names and only valid upstreams, and reports the first failing check |
| Config.ValidateConfig | src/config.rs:576-605 | accepts exactly configurations with unique names and addresses, valid instances and a valid global part, and reports the first failing check |
| Config.InstanceFoundByName | src/config.rs:608-610 | with unique names, every instance is found under its own name |
| Config.InstanceLookup | src/config.rs:608-610 | a lookup gives the first instance of that name |
| Config.MissingInstance | src/config.rs:608-610 | and none when no instance has it |
| Config.UpstreamAcceptedIff | src/config.rs:659-694 | what an upstream must have, and which lack is reported first |
| ValidatedRouting.AcceptedInstanceIsServed | src/config.rs:638-651 | started from an accepted instance, every strategy selects some upstream for every key, and weights count as configured |
| ValidatedRouting.AcceptedInstanceRing | src/config.rs:638-646 | for an accepted instance and a hash that separates its virtual keys, the ring has one entry per virtual node and equal shares |
| UdpSessions.StepKeepsBalance | src/proxy/udp.rs:162-310 | every step keeps active = created - expired and the per-session byte totals equal to the global ones; table size and active move together except in a check that finds its session expired and already gone |
| UdpSessions.ActiveIsTableLessStale | src/proxy/udp.rs:173-192 | over every run the active counter is the table size less the stale expiries |
| UdpSessions.TableAndCountersAgree | src/proxy/udp.rs:162-310 | as long as each listener checks within the timeout after its touch, table size = active = created - expired in every reachable state |
| UdpSessions.SubtractionInRangeIff | src/proxy/udp.rs:422-423 | the metrics' subtraction stays in range if and only if stale expiries do not outnumber the table |
| UdpStickiness.StickySessions | src/proxy/udp.rs:141-274 | once served, a client's packets all go to the same upstream as long as each follows its latest packet, or the latest reply passed on to it, within the timeout, unless a late check drops its live session |
| UdpStickiness.ReplyKeepsSession | src/proxy/udp.rs:254-269 | up to the timeout after a delivered reply every packet of its client stays with the session's upstream, a cleanup leaves the entry, and the listener's check finds nothing |
| UdpStickiness.FailedReplyRenewsNothing | src/proxy/udp.rs:249-252 | a reply that cannot be passed on ends the listener and renews no session |
| UdpStickiness.StickyWhenPrompt | src/proxy/udp.rs:254-269 | so they do wherever each listener checks within the timeout after its touch |
| UdpStickiness.StickyAfterCheckIff | src/proxy/udp.rs:265-273 | after a check, the next packet of a client with a live session stays with its upstream whatever the router selects if and only if the check was not one that finds an older session expired |
| UdpStickiness.LiveDropIsLate | src/proxy/udp.rs:254-269 | such a check is about an older session and comes more than the timeout after its touch |
| UdpStickiness.LateCheckMovesClient | src/proxy/udp.rs:254-273 | a concrete run in which it makes a client's next packet go to another upstream, every gap being within the timeout |
| UdpStickiness.SessionKeptIff | src/proxy/udp.rs:167-177 | a packet keeps its client's session if and only if that has not expired |
| UdpStickiness.CleanupRemovesExactlyExpired | src/proxy/udp.rs:285-305 | a cleanup leaves exactly the unexpired sessions and counts each removal once |
| UdpEffects.PacketEffect | src/proxy/udp.rs:141-196 | a packet leaves the table alone if its client has a live session; else an expired entry goes and is counted, and a new session is entered if an upstream was selected and its socket set up; the serving session is touched |
| UdpEffects.ServedByMeaning | src/proxy/udp.rs:167-184 | a packet goes to the upstream of its client's live session, or else to the one selected |
| UdpEffects.CheckEffect | src/proxy/udp.rs:265-273 | a check removes its client's entry and ends its listener exactly when its own session is past the timeout |
| UdpEffects.CountersCountTheRun | src/proxy/udp.rs:199-247 | after any run each session has counted exactly the bytes of the packets it served and of the replies it received, the proxy those of all, and every packet once |
| UdpStickiness.LateListenerUnderflows | src/proxy/udp.rs:265-273 | a concrete run in which a late check makes created minus expired negative |
| UdpProxies.UdpProxy.constructor | src/proxy/udp.rs:133-138 | a new proxy is the initial state |
| UdpProxies.UdpProxy.HandleClientPacket | src/proxy/udp.rs:141-159 | on shared session objects, the handler takes the machine's packet step and records a failed send once, on the upstream serving it, and nothing else |
| UdpProxies.UdpProxy.GetOrCreateSession | src/proxy/udp.rs:162-196 | returns the live session, or evicts the expired one and creates a new one if router and socket allow |
| UdpProxies.UdpProxy.ForwardToUpstream | src/proxy/udp.rs:199-228 | a send adds its bytes to session and totals and leaves the statistics alone; a failed one is recorded as one failed request |
| UdpProxies.RecordsOnlyInNumbers | src/proxy/udp.rs:213-226 | a failed send counts one request and one failure of the upstream served, and nothing anywhere else |
| UdpProxies.UdpProxy.ReceiveReply | src/proxy/udp.rs:243-255 | the machine's reply step: the bytes are added to session and totals, and the session is touched exactly when the reply could be passed on |
| UdpProxies.UdpProxy.CheckExpiry | src/proxy/udp.rs:265-273 | the machine's check step: past the timeout the client's entry goes and is counted, otherwise neither |
| UdpProxies.UdpProxy.ReceiveFailure | src/proxy/udp.rs:259-262 | a failure to receive ends the loop and moves no counter |
| UdpProxies.UdpProxy.RunSessionCleanup | src/proxy/udp.rs:285-305 | the two loops take the machine's cleanup step and leave exactly the sessions within the timeout |
| UdpProxies.UdpProxy.ErrorRate | src/proxy/udp.rs:419-434 | with the subtraction wrapping at 64 bits, the reported rate lies between zero and one if and only if no more sessions expired than were created, and is then their ratio |
| UdpCounters.CountersUpToTasksInFlight | src/proxy/udp.rs:270-302 | under every interleaving, created - expired - active is the number of tasks between the creation updates less those between the expiry updates, and table size - active is balanced up to ignored results |
| UdpCounters.QuiescentCounters | src/proxy/udp.rs:174-192 | with none mid-update active = created - expired, and the table has that size if and only if overwrites equal vain removals |
| UdpCounters.RaceDrifts | src/proxy/udp.rs:167-192 | two racing packets leave one entry and an active count of two, and go to two upstreams |
| UdpCounters.OneUpstreamUnlessOverlap | src/proxy/udp.rs:162-196 | under every interleaving, while its entry is not removed, a client's packets all go to one upstream unless two of them create a session side by side |
| UdpCounters.OverlapCanDiverge | src/proxy/udp.rs:179-195 | whenever two do, the next two steps can send them to different upstreams without removing an entry |
| TcpPool.OnlyPrefixExpired | src/proxy/tcp.rs:93-99 | in a pool the unusable connections are exactly a prefix |
| TcpPool.UsableIff | src/proxy/tcp.rs:93-99 | usable means idle for at most five minutes and at most an hour old |
| TcpPool.GetMeaning | src/proxy/tcp.rs:217-223 | a get hands out the first usable connection of the queue and leaves just what stands behind it |
| TcpPool.PutMeaning | src/proxy/tcp.rs:243-246 | a put appends to a queue of fewer than 100, and a full one is left alone and the refusal counted |
| TcpPool.FirstInFirstOut | src/proxy/tcp.rs:217-245 | connections all still usable come out in the order they were put in |
| TcpPool.PopUsable | src/proxy/tcp.rs:217-223 | the popping loop discards exactly the unusable prefix and returns the oldest usable connection, or empties the pool |
| TcpPool.GetKeepsPool | src/proxy/tcp.rs:206-227 | a get keeps the pool ordered and bounded, conserves every offered connection, and leaves only usable ones |
| TcpPool.PutKeepsPool | src/proxy/tcp.rs:230-247 | a put keeps the pool ordered and within 100, and a refused connection is accounted for |
| TcpPool.PutThenGet | src/proxy/tcp.rs:206-247 | a connection put into an empty pool comes back exactly within the idle limit |
| TcpPool.ConnectionPools.TryGetPooledConnection | src/proxy/tcp.rs:206-227 | takes from the named pool only, and keeps all pools ordered, bounded and conserved |
| TcpPool.ConnectionPools.ReturnConnectionToPool | src/proxy/tcp.rs:230-247 | enters the connection in the named pool unless pooling is off or the pool is full |
| TcpAccounting.ConnectionsAddUp | src/proxy/tcp.rs:122-134 | under every interleaving, total - active - finished is the number of tasks between paired updates; upstream connections sum to the streaming tasks and never exceed active; every selection is one pool hit or miss |
| TcpAccounting.UpstreamAddsUp | src/proxy/tcp.rs:286-311 | per upstream, connections are its streaming tasks, and requests - responses - failures its tasks mid-record |
| TcpAccounting.FatesAddUp | src/proxy/tcp.rs:170-311 | under every interleaving pool hits count the connections taken from the pool, misses those that dialed, and per upstream responses the streams that succeeded and failures those that failed |
| TcpAccounting.QuiescentGapsAreZero | src/proxy/tcp.rs:122-134 | with no connection in progress all gaps are zero |
| HttpMetrics.WindowIsRecent | src/proxy/http.rs:104-112 | the window is exactly the last k durations, k = n up to 10000 and 9001 + (n - 10001) mod 1000 beyond |
| HttpMetrics.HttpProxyMetrics.RecordDuration | src/proxy/http.rs:104-112 | one push, with its drain, leaves exactly those durations |
| HttpMetrics.HttpProxyMetrics.RecordStatus | src/proxy/http.rs:114-131 | counts the answered status, 502 for a failure, and no other |
| HttpMetrics.ErrorsArePart | src/proxy/http.rs:393-398 | error counts and the others make up all responses |
| HttpMetrics.IncrementAddsError | src/proxy/http.rs:393-398 | recording a status adds an error exactly for a status from 400 on |
| HttpMetrics.HttpProxyMetrics.ErrorRate | src/proxy/http.rs:393-404 | the error rate is the share of statuses from 400 on, within zero and one |
| HttpAccounting.RequestsAddUp | src/proxy/http.rs:93-131 | under every interleaving, total less the status counts is the number of requests in flight, total less the durations recorded that of those not yet timed, and the window is exactly the last durations recorded |
| HttpAccounting.OutcomesAddUp | src/proxy/http.rs:158-180 | per upstream, requests sent and not yet in its statistics are those awaiting their outcome, and requests - responses - failures those being recorded |
| HttpAccounting.FatesAddUp | src/proxy/http.rs:114-184 | under every interleaving each status count is the number of requests finished with it, 502 for all that no upstream answered, and per upstream responses and failures are those of its own requests |
| HttpAccounting.QuiescentRequests | src/proxy/http.rs:93-184 | with no request in flight totals, statuses, durations and each upstream's outcomes agree |
| SessionKey.FindCookieMeaning | src/proxy/http.rs:257-264 | from any text the key is the value of the first segment that gives one |
| SessionKey.SplitOnceMeaning | src/proxy/http.rs:259-261 | the split is at the first occurrence, so values may contain '=' |
| SessionKey.PrintedCookiesRoundTrip | src/proxy/http.rs:251-265 | printing cookies as in section 4.2.1 of RFC 6265 and extracting gives the first session_id value, and none exactly when there is none |
| SessionKey.RequestRoundTrip | src/proxy/http.rs:251-273 | in a request the printed session cookie is the key, and without one the key is that of the request without cookies |
| SessionKey.HeaderOrder | src/proxy/http.rs:251-273 | in any request: the first session cookie, or else x-forwarded-for if there, none if that is unreadable, or else x-real-ip |
| SessionKey.SplitOnMeaning | src/proxy/http.rs:257-257 | the cookie text is cut at every ';' and nothing is lost |
| SessionKey.TrimMeaning | src/proxy/http.rs:259-259 | all blanks and tabs at both ends of a segment go, and nothing else |
| SessionKey.SessionIdIsRead | src/proxy/http.rs:257-264 | the cookie looked for is session_id |

## Left out

- Shares.WeightedShare: the window of tickets must not cross the 64-bit wrap; when whole rounds stay exact across it is
  `RoundRobin.ExactAcrossWrapIff`.
- LeastConnections.GapStaysBounded: each selection is counted before the next; `LeastConnectionsRaces` separates the two.
  Connection counts are unbounded here, while the class wraps them at 64 bits.
- LeastConnectionsRaces.GapWithInFlight: health is fixed and no connection ends, as closing one may widen any gap.
- UdpSessions.StepKeepsBalance: counters are integers without wrap, so that a count below zero shows as such.
- TcpAccounting.ConnectionsAddUp: counters are integers without wrap, and tasks are never cancelled midway.
- HealthAware.ShareOfTickets: scores and the division by the largest ticket are exact reals; floating-point rounding is
  not modelled.
- HttpAccounting.RequestsAddUp: counters are integers without wrap, and tasks are never cancelled midway.
- Serving.ProcessRequest: the time between sending and recording is not modelled here; `HttpAccounting` interleaves it.
- UdpStickiness.StickySessions: packet handlers and cleanups run to their end one at a time, and receiving, passing on
  and touching are one step of a listener; the upstreams of packets handled side by side are in `UdpCounters`.
- UdpStickiness.LateCheckMovesClient: for timeouts above zero, the only ones the proxy's own validation admits.
- RouterSteps.SelectedIsListed: the list and ring locks are taken to exclude as their types promise; the health
  failure count and the health-check time, which no selection reads, are left out.
- The hash function is a parameter; nothing about AHash itself is used.
- Health written through handles from `get_upstreams` bypasses the ring; the ring invariants cover the router's own
  methods only.
- The timestamps `last_update` and `last_health_check` are written and never read by the modelled code.
- DashMap's shard locks: a removal is taken to go through although its handler still holds a guard on the entry
  (src/proxy/udp.rs:167-174). The `clear` at shutdown (src/proxy/udp.rs:384), which resets no counter, is not a step.
- Sockets, TLS, hyper and tokio: their results are parameters or nondeterministic choices.
- `return_connection_to_pool` has no caller in the repository; its pool is modelled as it would be used.
- The byte count of `copy_stream` and the sum of connection durations: sums of what the sockets and clocks report.
- URI building, header transformation, byte estimates and the other HTTP configuration: no state beyond one request.
- Cookie text blanks are space and tab, the only ones a readable header value can contain.
- `metrics.rs`, `server.rs`, `main.rs`, `router.rs`, `affinity.rs`, `buffers.rs` and `error.rs`: lifecycle, formatting and
  lookups that would only add easy members.
