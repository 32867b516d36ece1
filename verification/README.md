# AnchorCore: dial races, DNS, start order, routing and geosite files

This project models the parts of AnchorCore in which several steps, tasks or components have to
agree with each other, and proves what holds over all of their runs. `dafny verify dfyconfig.toml`
checks everything. There is one module per component:

| module | what it models |
|---|---|
| `ParallelDial` | the races between interfaces and between address families, as an event machine over the main loop, the racers and the fallback timer |
| `DnsMessage` | addresses and TTLs of a response, and the choice of one TTL for all records |
| `DnsClient` | the caching client: loading with ageing, storing, exchanging, looking up |
| `SingleFlight` | the per-question lock in front of the cache, for any number of concurrent tasks |
| `DnsRules` | the restartable rule loop of the DNS router, for messages and for lookups |
| `DnsQuery` | what the router takes the client to find, as the client finds it |
| `StartOrder` | dependency-ordered start and the diagnosis of dependency errors |
| `Lifecycle` | the four start stages across the outbound, endpoint, inbound and DNS transport managers |
| `OutboundRegistry` | list and tag map of the outbound manager under create, remove, start and close |
| `RouteRules` | the route rule interpreter, its overrides and its pre-match form |
| `GeositeFormat`, `GeositeFile` | the geosite format, its writer and its buffered reader |
| `CloseProtocol` | who calls the close callback of a relayed connection |
| `Version` | printing, parsing and comparing versions |
| `Lists`, `DnsCommon` | shared facts about lists, shared DNS types |

A protocol is a step relation: an event is enabled in a state and leads to the next one, and a theorem
about "every run" is about every sequence of enabled events from the initial state. Code that loops or
updates fields is a method, proved equal to a specification that does not mention the loop. What the
program does not decide itself (what a dial, a transport, a rule matcher or a sniffer answers, the time,
what the cache store evicts, how many bytes a read returns) is a parameter over which every theorem
quantifies.

## What turned out differently from what one would expect

For each of these a lemma or a contract says exactly when it happens, and for most of them another one gives
a concrete case.

- A negative answer whose SOA minimum is zero is cached all the same when some record has a positive TTL
  (`DnsMessage.NegativeTtlIsHonoured`, `DnsMessage.ZeroMinimumIsCached`).
- The seconds left of a cached response go through a float, which is exact below 2^24 seconds and may be one
  second more from there on; a record can then be served with more than its stored TTL only in the time the
  store adds to the lifetime (`DnsClient.ServedTtlExceedsExactlyWhen`, `DnsClient.RoundsUpSomewhere`).
- With the independent cache the lock is still keyed by the question alone, so a task may wait for one on
  another transport; what it waited for does not decide whether it is then served
  (`SingleFlight.ServedExactlyWhen`, `SingleFlight.IndependentWaiterMisses`).
- After a rejected response the options start again from those of the call: route-options matched before
  the rejected rule are forgotten (`DnsRules.OptionsSinceLastRejection`, `DnsRules.OptionsAreForgotten`).
- A lookup that ends at a predefined answer still reports the error of an earlier rejected attempt
  (`DnsRules.PredefinedAnswerKeepsOldError`, `DnsRules.OldErrorIsKept`).
- A reject rule with the method `reply` goes on to an exchange without a transport, which dereferences nil
  unless the client answers before it needs one (`DnsRules.NilTransportExactlyWhen`,
  `DnsRules.ReplyRuleDereferencesNil`).
- A lookup through a legacy server named by the caller ignores the strategy of that server, which an exchange
  through it respects (`DnsRules.NamedLookupDiffersExactlyWhen`).
- When two components that are started together share a tag, everything gets started but the count never
  matches, and the diagnosis dereferences nil, even if the component that is passed over could not start. An
  endpoint tagged "direct" in a configuration without outbounds is enough (`StartOrder.StartAll`, `Lifecycle.Box.Start`, `Lifecycle.FallbackMeetsEndpoint`).
- The outbound diagnosis calls an existing endpoint missing (`StartOrder.OutboundDiagnosis`,
  `StartOrder.EndpointReportedMissing`).
- A fallback outbound or transport, created during the second stage, is never told the first one, and
  starting a box that was pre-started panics (`Lifecycle.Box.Start`).
- After `Close`, removing an outbound that was registered, or creating one under its tag, panics
  (`OutboundRegistry.Manager.Close`, `OutboundRegistry.Manager.Remove`, `OutboundRegistry.Manager.Create`).
- With the deprecated sniffing option of an inbound, and for ICMP, pre-match does not foretell the full match
  under all rules (`RouteRules.PreMatchAgreesExactly`, `RouteRules.PreMatchCanFail`).
- The close callback of a stream runs once more for every early handshake that failed
  (`CloseProtocol.StreamCallsBack`, `CloseProtocol.FailedHandshakeCallsBackTwice`).
- The short name of a release candidate parses as a commit (`Version.ShortRoundTrip`).
- Two different versions can each be less than the other (`Version.LessThanBothWays`,
  `Version.CommitsAreLessThanEachOther`).

## Model

| member | source | states |
|---|---|---|
| ParallelDial.StepInv | common/dialer/default_parallel_interface.go:25-87 | every event of all three races (dial result, timer tick, launch, receive, abandon) keeps the invariant that ties racers, timer, error records and closes together |
| ParallelDial.RunInv | common/dialer/default_parallel_interface.go:67-87 | so does every interleaving of any number of racers |
| ParallelDial.TakeErrorStep | common/dialer/default_parallel_interface.go:79-82 | after taking an error the loop has given up if and only if all racers are among those whose error it took; its records name these racers, each once |
| ParallelDial.ConnectionsAreConserved | common/dialer/default_parallel_interface.go:25-51 | in every reachable state each connection made is held by its racer, closed, or returned, only one of these, and nothing is closed twice or while the call still waits |
| ParallelDial.EveryConnectionIsReturnedOrClosed | common/dialer/default_parallel_interface.go:99-150 | when a run of any variant has come to rest the call has returned; on success all connections but the returned one are closed exactly once, on failure there were none |
| ParallelDial.NeverStuck | common/dialer/default_parallel_interface.go:57-87 | while the call waits a racer is out or the timer is armed or fired, and some event is enabled |
| ParallelDial.DialsEndEitherWay | common/dialer/default_parallel_interface.go:38-51 | a dial can end either way at any time, also after the call has returned |
| ParallelDial.ConnectionIsTakenAtOnce | common/dialer/default_parallel_interface.go:75-77 | whatever the other racers do, a connection that is there is returned if the call waits, marked primary or not, and closed if it has returned |
| ParallelDial.WaitingCallReturnsAConnection | common/dialer/default_parallel_interface.go:75-77 | so from every reachable state in which the call waits and a racer has connected there is a run that returns that connection |
| ParallelDial.ErrorIsTakenAtOnce | common/dialer/default_parallel_interface.go:79-82 | in every reachable state in which the call waits an error that is there is taken, behind those taken before, and the call gives up if and only if it was the last |
| ParallelDial.TimerLaunchesTheFallbacks | common/dialer/default_parallel_interface.go:68-74 | while the call waits an armed timer can fire, and its tick launches all fallbacks and changes no other racer |
| ParallelDial.GivesUpLast | common/dialer/default_parallel_interface.go:66-87 | an error is returned only after every primary and fallback dial failed; the interface races report each error once, the family race the primary one |
| ParallelDial.PrimaryFailurePullsTheTimer | common/dialer/default_parallel_interface.go:83-85 | while the call waits, a running fallback timer has no delay left if and only if a primary error was taken |
| ParallelDial.FallbacksLaunchOnce | common/dialer/default_parallel_interface.go:61-74 | over a whole run the fallbacks are launched at most once, and without the launch none of them has left its initial state |
| ParallelDial.StepShrinks | common/dialer/default_parallel_network.go:106-129 | every event brings the race closer to its end, also one that re-arms the timer |
| ParallelDial.EveryRunEnds | common/dialer/default_parallel_network.go:85-130 | no run has more than four events per racer plus two, so with `NeverStuck` every race ends |
| DnsMessage.MessageToAddresses | dns/client.go:565-585 | the addresses of the A, AAAA and HTTPS answers in order, none unless the response is a success |
| DnsMessage.AddressesInOrder | dns/client.go:569-584 | the addresses of two lists of records are those of the first and then those of the second |
| DnsMessage.HintsInOrder | dns/client.go:577-581 | likewise for the parameters of an HTTPS record |
| DnsMessage.OneRecord | dns/client.go:571-582 | what a single record of each kind gives |
| DnsMessage.OnlySuccessHasAddresses | dns/client.go:566-568 | a response other than a success has no addresses |
| DnsMessage.TtlDoesNotMoveAddresses | dns/client.go:285-289 | rewriting the TTLs leaves the addresses of a response as they were |
| DnsMessage.SetTtl | dns/client.go:285-289 | every record gets the TTL and keeps its data and place |
| DnsMessage.ScanTtl | dns/client.go:273-281 | the nested scan gives zero if and only if every TTL is zero, and otherwise the least positive one |
| DnsMessage.LeastPositiveIsUnique | dns/client.go:273-281 | there is only one such TTL, so the scan is determined by the records |
| DnsMessage.FilterHints | dns/client.go:248-266 | under an only-strategy the HTTPS answers lose the hints of the other family and nothing else changes |
| DnsMessage.HintsOfOneFamily | dns/client.go:255-263 | what is left of the hints is exactly the addresses of the strategy's own family, in order |
| DnsMessage.ExtractNegativeTtl | dns/client.go:98-110 | the lesser of TTL and minimum of the first SOA record, none without one |
| DnsMessage.NegativeTtlIsTheLesser | dns/client.go:98-110 | it is the TTL or the minimum of the first SOA record and exceeds neither, and there is none exactly without such a record |
| DnsMessage.ChosenTtlIsUnique | dns/client.go:267-284 | there is exactly one TTL that meets the three rules of choice |
| DnsMessage.ChooseTtl | dns/client.go:267-284 | a rewrite wins; a response without answers gets its RFC 2308 TTL if positive; everything else the least positive TTL |
| DnsMessage.RewriteWinsAndAnswersAreScanned | dns/client.go:267-284 | a rewrite is obeyed, also one to zero; a response with answers gets the least positive TTL |
| DnsMessage.NegativeTtlIsHonoured | dns/client.go:267-281 | a negative answer gets the TTL of section 5 of RFC 2308 if and only if that is positive or no record has a positive TTL |
| DnsMessage.ZeroMinimumIsCached | dns/client.go:267-281 | an SOA of TTL 300 and minimum 0 is given 300 seconds and nothing else |
| DnsClient.LifetimeIsExact | dns/client.go:434-439 | the product of seconds and nanoseconds does not overflow for any 32-bit TTL |
| DnsClient.KeysTellApart | dns/client.go:426-449 | the shared cache tells questions apart, the independent one questions and transports |
| DnsClient.RejectedQuestions | dns/client.go:120-125 | which questions each strategy answers with nothing |
| DnsClient.CacheableCodes | dns/client.go:231-231 | successes and name errors may be cached, nothing else |
| DnsClient.RejectionLaw | dns/client.go:232-239 | a checked response is accepted exactly if it is a success with answers whose addresses the checker accepts |
| DnsClient.ShownHints | dns/client.go:248-266 | only HTTPS answers under an only-strategy change, and of these only the hints, down to those of the family asked for |
| DnsClient.PreferredFamilyFirst | dns/client.go:418-424 | `PreferIPv6` puts the IPv6 addresses first, every other strategy the IPv4 ones, each family in its order |
| DnsClient.LookupTerms | dns/client.go:312-317 | the lookup strategy comes before the query strategy, and only a success is an answer with addresses |
| DnsClient.NoExpiryServesAsStored | dns/client.go:496-508 | without expiry an entry is served as it was stored |
| DnsClient.Client.StoreCache | dns/client.go:426-449 | a zero TTL stores nothing; any other stores the message for that lifetime and keeps every entry's records and expiry in step |
| DnsClient.Client.Age | dns/client.go:547-553 | ageing in 32-bit arithmetic brings every record to the seconds left, for all TTLs and seconds |
| DnsClient.RoundsUpOnlyLate | dns/client.go:542-542 | the conversion through a float is exact below 2^24 seconds, and beyond that rounds up only in the last half microsecond of a second |
| DnsClient.RoundsUpSomewhere | dns/client.go:542-542 | one nanosecond before 2^24 + 1 seconds it does |
| DnsClient.ServedTtlExceedsExactlyWhen | dns/client.go:542-553 | a served TTL exceeds the stored one if and only if the float rounds up in the very second the store added, which needs a TTL from 2^24 seconds on |
| DnsClient.OriginIsTtl | dns/client.go:534-541 | the TTL scanned from a stored message is the one it was stored with, or there are no records |
| DnsClient.Client.LoadResponse | dns/client.go:491-563 | before expiry a copy whose records all carry the seconds left; after it nothing, and the entry is dropped; without expiry the message as stored |
| DnsClient.SecondsLeft | dns/client.go:542-551 | unless the float rounds up, the TTL that is served is the whole seconds left and at most the stored TTL; where it does, one more |
| DnsClient.SoundLater | dns/client.go:510-561 | the cache invariant survives the passing of time |
| DnsClient.ServedRecordsDoNotOutliveTheOriginal | dns/client.go:534-561 | an entry served from any sound cache carries in every record the seconds left of the lifetime it was given when it was stored, and without a TTL rewrite none claims to live past a positive RFC 2308 TTL of a negative answer, or past any positive TTL of any other response, but for the skew of the store and the half microsecond of the float |
| DnsClient.Client.PerformAll | dns/client.go:112-306 | over any operations an entry stays until it is dropped or expires, and every other entry is what one of the exchanges stored |
| DnsClient.Client.ExchangeThenLoad | dns/client.go:285-292 | after an exchange that stored its answer and any operations, also on the same question, a load before expiry serves every record with the seconds left unless the store dropped it, and nothing outlives the original |
| DnsClient.Client.RunThenLoad | dns/client.go:491-563 | from an empty cache and after any operations, whatever a load serves is the answer to one of the exchanges, not expired, with the seconds left in every record, and outlives nothing of it |
| DnsClient.Client.RunThenExchange | dns/client.go:514-517 | with the independent cache, after any operations, an exchange through a transport that no exchange of the question has used is never answered from the cache |
| DnsClient.Client.ExchangeTwice | dns/client.go:145-170 | with the shared cache, until it expires or is dropped, an answer serves exchanges of the question through every transport without asking it |
| DnsClient.CheckResponse | dns/client.go:232-247 | with a checker, a response is rejected if it is no success, has no answers, or has addresses the checker refuses |
| DnsClient.Client.Exchange | dns/client.go:112-306 | the outcome, whether the transport is asked, and the whole cache afterwards, on every branch from the missing question to the stored answer |
| DnsClient.Client.Finish | dns/client.go:231-292 | a rejected response is not stored; any other is returned with the chosen TTL in every record and stored under it if its code is cacheable and the TTL positive |
| DnsClient.Client.Rewrite | dns/client.go:248-289 | the response without ruled-out hints, with its chosen TTL in every record |
| DnsClient.Client.QuestionCache | dns/client.go:479-489 | the addresses or the error code of a cached response, or a miss |
| DnsClient.Client.LookupToExchange | dns/client.go:451-477 | the answer and whether the transport is asked, as a function of the cache before the call; the entries of other questions stay as they are |
| DnsClient.Client.LookupBoth | dns/client.go:322-341 | whichever of the two family queries gets to the cache first, both answers are those of the cache before the call |
| DnsClient.Client.LookupCache | dns/client.go:356-402 | hits if and only if the shared cache holds every family the strategy asks for; a hit leaves the cache alone and a miss drops only expired entries |
| DnsClient.Client.Lookup | dns/client.go:308-346 | addresses, error and contact with the transport for every strategy; whenever `LookupCache` would hit at the same instant, the same addresses without asking the transport |
| DnsClient.Client.FailureMeansNoAddresses | dns/client.go:342-345 | a lookup that fails has no addresses, and one whose families all have answers does not fail |
| SingleFlight.StepInv | dns/client.go:143-171 | every step of every task keeps the invariant over tasks, channels, cache and clean-up records |
| SingleFlight.RunInv | dns/client.go:143-171 | so does every interleaving of any number of tasks |
| SingleFlight.OneLeaderPerQuestion | dns/client.go:143-164 | at most one task leads a question at a time; a deletion removes the channel its own task created; each channel is deleted at most once and closed at most once, after its deletion |
| SingleFlight.LeaderCleansUp | dns/client.go:149-152 | a task that led a question at any time has in the end deleted its channel exactly once and closed it exactly once, and no channel is left registered |
| SingleFlight.WaiterSeesTheAnswer | dns/client.go:145-170 | a waiter loads only after the creator of its channel has finished, for the same question, and is served if the creator stored an answer that was not dropped since (with the independent cache: on the same transport) |
| SingleFlight.WaiterAsksOnlyForWhatIsLost | dns/client.go:146-170 | in every reachable state, a task that has waited and asks the transport does so only if what its leader stored was dropped or is kept under another transport |
| SingleFlight.AsksOnlyAfterAMiss | dns/client.go:165-171 | in every run, a task that asks has loaded before, at a moment when nothing was there to serve it |
| SingleFlight.FetchStores | dns/client.go:290-292 | leader or follower, what a task stores is found by loads under its key |
| SingleFlight.NobodyIsHeldUp | dns/client.go:143-171 | a task waits for nobody but its leader |
| SingleFlight.IndependentWaiterMisses | dns/client.go:154-165 | there is a run in which a waiter on another transport misses although the answer it waited for is stored |
| SingleFlight.ServedExactlyWhen | dns/client.go:165-170 | in every reachable state, a load is served if and only if some task stored an answer under the same key that was not dropped since |
| SingleFlight.NeverStuck | dns/client.go:143-171 | as long as a task is unfinished, some task can take a step |
| SingleFlight.StepShrinks | dns/client.go:143-171 | every step, also an eviction, brings the tasks closer to their end |
| SingleFlight.EveryRunEnds | dns/client.go:143-171 | no run has more than eight events per task, and where no task can move all are finished: every waiter is woken |
| DnsRules.MatchDns | dns/router.go:121-200 | from behind a rejected rule the search stops at the next rule that ends the query or names a usable server, with the options the declarative search carries there, or at the default with index -1 |
| DnsRules.Resolve | dns/router.go:252-306 | the retry loop gives the outcome of the first decisive rule and otherwise that of the unchecked default, after at most one attempt more than there are rules |
| DnsRules.FirstDecisive | dns/router.go:126-199 | it is decisive and no rule before it is |
| DnsRules.DecisiveExactlyWhen | dns/router.go:131-196 | which rules decide, said without the search: matching and eligible with the addresses met, and ending the query, or with a server that exists and is allowed, and no address limit or a response that is not rejected |
| DnsRules.OtherQueriesAreNotChecked | dns/router.go:132-134 | a query that does not ask for addresses is decided by a rule without an address limit, and nothing is rejected |
| DnsRules.ChecksDoNotMatter | dns/router.go:132-134 | so its answer is the same however responses are checked |
| DnsRules.FirstDecisiveSkips | dns/router.go:126-130 | resuming behind rules that do not decide finds the same decision |
| DnsRules.LaterRulesDoNotMatter | dns/router.go:126-199 | two rule lists that agree up to the deciding rule give the same answer |
| DnsRules.NilTransportExactlyWhen | dns/router.go:257-287 | a query dereferences a nil transport if and only if the first decisive rule is a matching reject rule with the method `reply`, or no rule decides and there is no default, and the client has no answer before it needs a transport |
| DnsRules.NeverNilTransport | dns/router.go:257-287 | without such rules and with a default it never does |
| DnsRules.ReplyRuleDereferencesNil | dns/router.go:259-287 | one such rule is enough |
| DnsRules.OptionsSinceLastRejection | dns/router.go:179-191 | the options at a rule are those of the call with the route-options edits matched since the last rejection: of each value the last one given, and no caching once one says so |
| DnsRules.OptionsAreForgotten | dns/router.go:253-256 | a rule that turns off the cache has no effect behind a rejected rule |
| DnsRules.RouteAsksWith | dns/router.go:158-177 | the options a server is asked with: the edits of the route rule come last, a legacy server fills what is open, then the default strategy, and FakeIP is never cached |
| DnsRules.AnswerIsAskedWith | dns/router.go:252-306 | for every query: the deciding server is asked with the options of the call as edited since the last rejection and by its own rule, the default transport with those edits alone |
| DnsRules.AddressesSinceLastRejection | dns/router.go:279-282 | the addresses a rule meets are those the last rejection left behind, or those of the call |
| DnsRules.RetriesAreRejections | dns/router.go:288-304 | the number of retries is the number of rules whose response was rejected |
| DnsRules.Exchange | dns/router.go:202-306 | the wrong number of questions, the cache, a named transport and the rules in this order; with rules, the response (refused, dropped, predefined, what the client found, or the nil dereference) is that of the declarative search, after at most n+1 attempts over n rules |
| DnsRules.NamedAsksLikeARoute | dns/router.go:233-246 | a named server is asked as a route rule without edits would ask it, except that FakeIP answers may be cached |
| DnsRules.NamedLookupDiffersExactlyWhen | dns/router.go:361-374 | when a lookup and an exchange through the same named server ask with the same options |
| DnsRules.EndedByRule | dns/router.go:257-276 | a query that ends without an exchange ended at a decisive reject or predefined rule |
| DnsRules.EndingRuleAnswers | dns/router.go:259-275 | a reject rule refuses or drops as its method says, a predefined rule gives its own response |
| DnsRules.EndingRuleFailsLookup | dns/router.go:388-402 | a lookup that ends at a reject rule, an error code or an empty answer fails without addresses |
| DnsRules.Lookup | dns/router.go:327-429 | the cache, a named transport and the rules in this order; with rules, addresses and error are read off the declarative search, and every error of a rule with an address limit is retried |
| DnsRules.LookupNamed | dns/router.go:361-374 | the options a named server is looked up with |
| DnsRules.PredefinedAnswerKeepsOldError | dns/router.go:390-403 | a lookup that ends at a predefined answer with addresses comes back without an error if and only if no earlier rule was tried in vain |
| DnsRules.OldErrorIsKept | dns/router.go:390-403 | behind a rejected rule a predefined answer comes back with its addresses and an error |
| DnsQuery.Ask | dns/router.go:246-246 | without a check, what the client's exchange returns is what the rule loop takes it to find, for every cache and reply |
| DnsQuery.AskChecked | dns/router.go:287-304 | with a check, the rule loop is rejected exactly where the client rejects, or an error wraps a rejection, and keeps the addresses the check looked at |
| StartOrder.StartAll | adapter/outbound/manager.go:93-158 | what is started is the schedule up to its first failing position, each tag once and after its dependencies; all are started if and only if an order exists, the tags are distinct and no position fails; the nil dereference happens if and only if an order exists, tags are shared and no scheduled position fails; a start error if and only if a scheduled position fails; a dependency error is truthful and means that no order exists |
| StartOrder.ScheduleSound | adapter/outbound/manager.go:96-135 | the schedule, pass by pass, starts each tag after its dependencies and goes on until nothing that is left can be started |
| StartOrder.PassSound | adapter/outbound/manager.go:98-129 | so does one pass behind any valid order |
| StartOrder.PassInListOrder | adapter/outbound/manager.go:98-99 | a pass goes through the list from the front |
| StartOrder.ShadowedIsNeverStarted | adapter/outbound/manager.go:101-103 | a component behind one of the same tag that has no dependencies is never started |
| StartOrder.StartRound | dns/transport_manager.go:94-117 | a round starts what the pass picks, up to and including the first position that fails, and marks the tags of the pass |
| StartOrder.Conclude | dns/transport_manager.go:118-143 | the end of the loop: everything was started under distinct tags or under shared ones, or a truthful diagnosis of a list that has no order |
| StartOrder.AllStartedIn | dns/transport_manager.go:101-106 | true if and only if every dependency is started |
| StartOrder.ExtendOrder | adapter/outbound/manager.go:104-111 | starting a ready component extends a valid start order |
| StartOrder.BlockedMeansImpossible | adapter/outbound/manager.go:130-136 | when nothing that is left can be started, no order at all starts everything |
| StartOrder.FirstOutside | adapter/outbound/manager.go:130-136 | a complete order would stay within what a blocked loop has started |
| StartOrder.Lint | dns/transport_manager.go:128-142 | the walk ends; "circular" names a path of real unstarted dependencies that returns to itself, "not found" a real dependency that the registry lacks |
| StartOrder.Diagnose | dns/transport_manager.go:124-143 | the diagnosis is truthful whenever something is left, and dereferences nil exactly when nothing is |
| StartOrder.FirstMissingIsFirst | dns/transport_manager.go:129-131 | the dependency that is looked at is the first that is not started |
| StartOrder.FirstUnstartedIsFirst | dns/transport_manager.go:124-126 | the walk begins at the first component that is not started |
| StartOrder.NotFoundMeansAbsent | dns/transport_manager.go:135-140 | with a registry of exactly the listed components, a dependency reported missing belongs to none |
| StartOrder.NotFoundExactlyWhen | dns/transport_manager.go:124-143 | a dependency is reported missing if and only if the path of first missing dependencies leads to it before it repeats itself |
| StartOrder.LintFollows | dns/transport_manager.go:128-142 | the walk follows that path to its end |
| StartOrder.LintPath | dns/transport_manager.go:128-142 | a walk that ends outside the registry has followed such a path |
| StartOrder.OutboundDiagnosis | adapter/outbound/manager.go:136-155 | the outbound manager reports an existing component missing if and only if the first tag on that path that no outbound has, before any repeat, is an endpoint's |
| StartOrder.OutboundDiagnosisIsRight | adapter/outbound/manager.go:136-155 | where nothing that is left waits for an endpoint, what it reports missing does not exist |
| StartOrder.EndpointReportedMissing | adapter/outbound/manager.go:147-152 | an outbound and an endpoint that depend on each other are reported as a missing dependency |
| StartOrder.PicksAreAll | adapter/outbound/manager.go:99-132 | under unique tags a complete start has started every component of the list exactly once |
| Lifecycle.StartEach | adapter/lifecycle_legacy.go:3-28 | the components up to and including the first that fails are told the stage once, and no others; all are at the next level exactly when none fails |
| Lifecycle.TellNext | adapter/outbound/manager.go:83-88 | telling some components the next stage keeps each one's list an initial piece of the stages; telling all brings the manager to the next level |
| Lifecycle.Tell | adapter/outbound/manager.go:110-128 | exactly the picked components get one more "start" |
| Lifecycle.SettleDefault | dns/transport_manager.go:59-73 | the start goes on if and only if a default is there or was created, and a created one joins the components before anything starts |
| Lifecycle.StartListed | adapter/outbound/manager.go:93-158 | which positions of a list were started, each at most once, and exactly when that ends well or in the nil dereference; a component that is never started does not count |
| Lifecycle.StartTogether | adapter/outbound/manager.go:77-79 | outbounds and endpoints started in one dependency order: exactly an initial piece of the schedule is told "start", all of both managers on success, and each list stays an initial piece |
| Lifecycle.StartOrdered | adapter/outbound/manager.go:58-79 | the same including the default, with no component lost, and the exact conditions of success and of the nil dereference |
| Lifecycle.Box.StartOutbound | adapter/outbound/manager.go:51-91 | the panic happens exactly when the stage is not new; otherwise the manager reaches the next level or stops with initial pieces, and touches only endpoints besides |
| Lifecycle.Box.StartTransport | dns/transport_manager.go:52-88 | the same for the DNS transports, on their own |
| Lifecycle.Box.StartInbound | adapter/inbound/manager.go:38-54 | the same for the inbounds |
| Lifecycle.Box.StartEndpoint | adapter/endpoint/manager.go:36-55 | the same for the endpoints, whose "start" came from the outbound manager |
| Lifecycle.Box.StartRest | box.go:475-486 | inbounds, endpoints and services of a stage, in this order: success exactly when none of them fails |
| Lifecycle.Box.StartDns | box.go:451-454 | network, DNS transports, DNS router, connection manager and router of a stage, in this order: success exactly when none of them fails |
| Lifecycle.Box.InitializeAll | box.go:451-454 | from a fresh box all four managers are told "initialize" in full exactly when nothing fails |
| Lifecycle.Box.PreStart | box.go:439-460 | on success outbounds, endpoints and transports have been told two stages, inbounds one; when it dereferences nil; a second call panics unless an earlier service fails |
| Lifecycle.Box.StartFirstHalf | box.go:455-458 | the nil dereference happens exactly at a list that could be started but has a shared tag |
| Lifecycle.Box.StartSecondHalf | box.go:467-474 | the second half of the second stage, without reaching a panic, and exactly when it succeeds |
| Lifecycle.Box.PostStartAll | box.go:475-478 | all four managers at the third stage exactly when nothing fails there, without reaching a panic |
| Lifecycle.Box.FinishAll | box.go:483-486 | all four managers at the fourth stage exactly when nothing fails there, without reaching a panic |
| Lifecycle.Box.StartAfter | box.go:467-491 | what follows the first half of the second stage ends well exactly when nothing fails from there on |
| Lifecycle.Box.Start | box.go:462-492 | from a fresh box no manager panics; whatever fails, every registered component has been told an initial piece of the four stages, each once and in order, and all four on success; no component is dropped; managers and services are started in the order of the box, up to the first that fails; success happens if and only if nothing fails, orders exist and no tag is shared; the nil dereference if and only if all goes well up to a list with an order and a shared tag, whatever a component that is never started would do |
| Lifecycle.FallbackMeetsEndpoint | box.go:317-325 | it happens to a box with one endpoint tagged "direct" and no outbounds, whether or not that endpoint could start |
| OutboundRegistry.Manager.constructor | adapter/outbound/manager.go:36-45 | a new manager is empty and satisfies the registry invariant |
| OutboundRegistry.Manager.Index | adapter/outbound/manager.go:214-219 | the position of an outbound, or -1 exactly when it is not listed |
| OutboundRegistry.Manager.SettleDefault | adapter/outbound/manager.go:58-76 | keeps the invariant; in a valid registry the fallback is registered only when it is empty, so it cannot shadow a tag |
| OutboundRegistry.Manager.OthersThan | adapter/outbound/manager.go:268-282 | the outbound of a tag is not found in the list exactly when the map knows it and the list does not; otherwise exactly the others are left, in order |
| OutboundRegistry.Manager.Register | adapter/outbound/manager.go:283-294 | a new outbound takes the place of whatever had its tag, in list and map alike |
| OutboundRegistry.Manager.AddDependencies | adapter/outbound/manager.go:285-288 | each dependency gains the tag among its dependants as often as it is named, and no other list changes |
| OutboundRegistry.Manager.RemoveDependencies | adapter/outbound/manager.go:234-243 | each dependency forgets its only dependant, whoever that is, or else the tag, as often as it is named |
| OutboundRegistry.AddedIsForgotten | adapter/outbound/manager.go:234-243 | for a tag that was not there before, a removal undoes what a creation added to a dependency |
| OutboundRegistry.Manager.Create | adapter/outbound/manager.go:250-296 | in every state: fails exactly when tag, creation, start or the closing of the replaced one do not allow it; panics if and only if it gets as far as the list and the map knows an outbound the list lacks, which a valid registry excludes; a success says list, map, dependants and default in full, and anything else changes nothing |
| OutboundRegistry.Manager.Unlist | adapter/outbound/manager.go:214-229 | takes one outbound out of the list, keeping the order of the others, and moves the default |
| OutboundRegistry.Manager.Remove | adapter/outbound/manager.go:206-248 | takes the outbound out of list and map even when it reports dependants; panics if and only if the map knows an outbound the list lacks; keeps the invariant; says list, default and dependants in full |
| OutboundRegistry.Manager.Close | adapter/outbound/manager.go:160-182 | empties the list and not the map, which breaks the invariant for every tag that was registered |
| OutboundRegistry.WithoutKeeps | adapter/outbound/manager.go:220-220 | cutting one position out of a duplicate-free list removes that element and no other |
| RouteRules.MatchRuleLoop | route/route.go:366-577 | the loop with its early exits computes the recursive run, pre-match or full |
| RouteRules.FirstMatchIsSelected | route/route.go:464-574 | the first-match law: the run ends at the first rule that matches the metadata it meets and is a route, reject or hijack rule, or a sniff rule in pre-match, or whose action fails |
| RouteRules.FirstMatchIsUnique | route/route.go:464-574 | that law determines the verdict |
| RouteRules.MatchRuleSelects | route/route.go:366-577 | it holds of every whole match |
| RouteRules.BeforeTheRules | route/route.go:433-461 | what the deprecated options of an inbound do before the rules, and when that is fatal |
| RouteRules.PreMatchFrom | route/route.go:463-577 | from the same point, a pre-match that does not stop at a sniff rule ends as the full run does |
| RouteRules.PreMatchIsSound | route/route.go:433-577 | for TCP and UDP without deprecated sniffing, pre-match and full match give the same rule and metadata unless pre-match stops at a sniff rule, and then that rule is the first the full match sniffs with, from the same metadata |
| RouteRules.SniffsGrow | route/route.go:543-560 | the full run only adds to its sniffs, and at a matching sniff rule adds that one first |
| RouteRules.PreMatchCanFail | route/route.go:433-448 | with deprecated sniffing, and for ICMP, there are rules under which pre-match finds none and the full match rejects |
| RouteRules.PreMatchAgreesExactly | route/route.go:433-577 | for every metadata that comes to the rules: pre-match foretells the full match under all rules if and only if it is not ICMP and deprecated sniffing is off |
| RouteRules.RunEndsThere | route/route.go:463-577 | a run ends as the rules up to the selected one, or all of them, leave it |
| RouteRules.RunTracks | route/route.go:463-513 | after any number of rules the destination is the fold of the edits of those that matched, and the original destination is the one recorded by them |
| RouteRules.DestinationIsTheFold | route/route.go:494-513 | whatever happened before the rules, the final destination is the in-order fold of the overrides (and sniffed domains) of exactly the matching rules up to the one that stopped the run; a valid original destination stays, and otherwise it is the one that stood just before the first override that met a valid one |
| RouteRules.RedirectLaw | route/route.go:499-513 | an override replaces address and domain, or the port, and leaves the rest |
| RouteRules.ValidDestinationsStay | route/route.go:499-513 | from a valid destination every edit leads to a valid one |
| RouteRules.OriginalStoodBeforeTheFirstOverride | route/route.go:496-498 | from a valid destination and no original one, the original destination is valid from the first override on and is what stood just before it |
| RouteRules.OptionsAddUp | route/route.go:514-541 | over every run, the options of exactly the matching rules up to the one that stopped it, in their order: the last value given stands for each option, and flags once set stay set |
| RouteRules.AddressesAndSniffsAddUp | route/route.go:505-566 | over every run the addresses are those the last matching rule set or cleared, what was sniffed is what the last sniff found, and the network stays |
| GeositeFormat.UvarintRoundTrip | common/geosite/reader.go:68-71 | every 64-bit number is read back from its varint, and the reader stops right behind it |
| GeositeFormat.StringRoundTrip | common/geosite/reader.go:81-84 | so is every string |
| GeositeFormat.ItemsRoundTrip | common/geosite/reader.go:114-119 | so is every list of items, whatever follows it |
| GeositeFormat.EntriesRoundTrip | common/geosite/reader.go:75-96 | so is every list of header entries |
| GeositeFormat.HeaderRoundTrip | common/geosite/writer.go:30-53 | a decoded header gives its entries and leaves exactly what follows it |
| GeositeFormat.ContentPrefix | common/geosite/writer.go:18-28 | the items of a code stand at the recorded offset of the content |
| GeositeFormat.FileRoundTrip | common/geosite/writer.go:11-61 | from a written file the header gives the entries, and the items of each code stand at its offset behind the header |
| GeositeFormat.SampleFile | common/geosite/writer.go:30-58 | a file of two codes, byte by byte |
| GeositeFormat.LargeNumber | common/geosite/writer.go:35-35 | a number of two bytes, the low one first |
| GeositeFile.SortedKeys | common/geosite/writer.go:12-16 | the codes of the map, sorted, each once |
| GeositeFile.InsertSorts | common/geosite/writer.go:16-16 | inserting into a sorted list keeps it sorted and adds that code alone |
| GeositeFile.FirstDifferenceDecides | common/geosite/writer.go:16-16 | codes are ordered by the first byte that differs, and a code comes before its extensions |
| GeositeFile.SortedIsUnique | common/geosite/writer.go:16-16 | there is one sorted list of a set of codes, so the file depends on the map alone |
| GeositeFile.WriteContent | common/geosite/writer.go:18-28 | the index of each code is the length of the content before it |
| GeositeFile.WriteHeader | common/geosite/writer.go:30-53 | the header lists each code with its offset and number of items |
| GeositeFile.Write | common/geosite/writer.go:11-61 | the file is the header of the sorted codes followed by their items |
| GeositeFile.Reader.ReadFile | common/geosite/reader.go:131-137 | however many bytes a read returns, the count stays the file position |
| GeositeFile.Reader.ReadUvarint | common/geosite/reader.go:68-68 | through the buffer, on every input, a number is decoded or refused as the format says |
| GeositeFile.Reader.ReadEntries | common/geosite/reader.go:72-96 | the two maps are those of the decoded entries, and reading fails exactly when the format does |
| GeositeFile.Reader.ReadCount | common/geosite/reader.go:61-71 | version and number of entries, or a refusal exactly when the format has none |
| GeositeFile.Reader.ReadIndex | common/geosite/reader.go:73-100 | the entries, and that the count less what is buffered is where they end |
| GeositeFile.Reader.ReadMetadata | common/geosite/reader.go:58-102 | for every byte string: refused exactly when it has no header, a panic exactly when the count is too large to allocate, and otherwise the computed metadata offset is the length of the header whatever was read ahead |
| GeositeFile.Reader.Read | common/geosite/reader.go:104-120 | for every byte string: the items of a code are those that stand at its offset behind the metadata; a negative offset is refused and a length that cannot be allocated panics |
| GeositeFile.RefusalsAndPanics | common/geosite/reader.go:68-72 | which failures of reading are errors and which are panics |
| GeositeFile.RoundTrip | common/geosite/writer.go:11-61 | a written file is readable: exactly the codes of the map, and exactly the items of each |
| GeositeFile.WriteThenRead | common/geosite/reader.go:58-120 | writing a map and reading it back gives its codes, and for each code with items those items |
| CloseProtocol.StepInv | route/conn.go:258-311 | every step of both directions keeps the count of callbacks made and due in step with the swaps |
| CloseProtocol.PacketCallsBackOnce | route/conn.go:372-395 | in every interleaving a packet connection calls back at most once, and in the end exactly once, from the direction that finished first, with both connections closed |
| CloseProtocol.StreamCallsBack | route/conn.go:229-311 | when both copies of a stream have ended it has called back once plus once per failed early handshake: exactly once if and only if none failed, and then from the direction that finished last |
| CloseProtocol.StreamClosedExactlyWhen | route/conn.go:297-311 | a stream is closed in both directions exactly when something failed or both copies have ended |
| CloseProtocol.PacketClosedExactlyWhen | route/conn.go:391-394 | a packet connection exactly when one direction has ended |
| CloseProtocol.NobodyIsHeldUp | route/conn.go:107-108 | neither direction is held up by the other |
| CloseProtocol.EarlyCallIsTheDownload | route/conn.go:104-106 | before the copies only a failed download handshake can call back |
| CloseProtocol.BothHandshakes | route/conn.go:243-247 | and it does exactly when both failed |
| CloseProtocol.FailedHandshakeCallsBackTwice | route/conn.go:104-108 | a run with one failed handshake that calls back twice |
| CloseProtocol.FailuresAreCounted | route/conn.go:243-247 | the state counts the failed handshakes of the run |
| Version.RoundTrip | common/badversion/version.go:88-152 | parsing a printed version gives it back if and only if its numbers are not negative, it has no commit, and its identifier has no separator (and is there if it has a pre-release number) |
| Version.NameRoundTrip | common/badversion/version.go:114-152 | what the name of a version with proper numbers and identifier parses to |
| Version.ShortRoundTrip | common/badversion/version.go:96-152 | parsing the short name gives the version back if and only if it is canonical and a release, an alpha or a beta |
| Version.AtoiOfTooLarge | common/badversion/version.go:143-149 | a number that is too large becomes the largest one, and beyond 64 bits whatever follows it |
| Version.AtoiOfNoNumber | common/badversion/version.go:143-149 | what is not a number, short of that, is zero |
| Version.CommitIsKept | common/badversion/version.go:135-137 | anything else behind the dash is a commit |
| Version.LeadingV | common/badversion/version.go:115-117 | a leading "v" makes no difference |
| Version.ParsedIsClean | common/badversion/version.go:114-152 | whatever is parsed, numbers are not negative, the identifier has no separator, and a commit excludes an identifier |
| Version.KnownVersionsAreOrdered | common/badversion/version.go:33-82 | releases and alpha, beta and rc versions are totally ordered |
| Version.NewerIsGreater | common/badversion/version.go:33-82 | the first number that differs decides, then being a release, then the number of the pre-release, then its kind |
| Version.LessThanBothWays | common/badversion/version.go:33-82 | which different versions are each less than the other |
| Version.CommitsAreLessThanEachOther | common/badversion/version.go:33-82 | two commits on the same release are |

## Left out

- ParallelDial.NeverStuck: takes for granted that every dial comes back, which is the business of the sockets; delays are reduced to the order of events, and the reset of the fast-fallback time after a late primary is not modelled.
- ParallelDial.GivesUpLast: for the family race a racer is one serial dial; the serial loops over addresses and the choice of interfaces would only add simple members.
- DnsMessage.ChooseTtl: responses without an OPT record only; the code overwrites the flags in the TTL field of that record (section 6.1.3 of RFC 6891), and the EDNS0 handling rests on shared message objects.
- DnsClient.Client.Exchange: that the stored message object still gets its ID and OPT record edited afterwards is not modelled; the store of known rejections is a parameter of the call.
- DnsClient.Client.Lookup: each family query is one step, in either order; that the task group may cancel one of them is not modelled.
- DnsClient.ServedRecordsDoNotOutliveTheOriginal: the skew of the store is any amount below one second, because the store keeps its own clock.
- SingleFlight.NeverStuck: tasks are independent; a query made from inside another one for the same question would wait for itself.
- DnsRules.Exchange: the reverse mapping filled in after the response is not modelled.
- StartOrder.StartAll: which error text is printed is not modelled, only what it names.
- Lifecycle.Box.Start: services without components of their own are an oracle that succeeds or fails; closing after a failed start is not modelled.
- OutboundRegistry.Manager.RemoveDependencies: says what the code does and not that the dependants are exact, because after a replacement or a removal that reports dependants they are not.
- OutboundRegistry.Manager.Create: lists are values, so that two slices may share memory is not captured; locks are taken as given and operations as one step each.
- RouteRules.MatchRuleLoop: matching, sniffing, resolving, process search, FakeIP and reverse mapping are oracles; buffers of sniffed data and the wrappers of cached connections are not modelled.
- GeositeFile.WriteThenRead: a code without items is read as the varbin library reads an empty slice, which is a parameter; the map and its file are assumed to fit the lengths and slices of Go, as they did when the file was written.
- GeositeFile.Reader.ReadEntry: how the varbin library allocates a string of absurd length is not modelled; a string longer than the file is refused.
- CloseProtocol.StreamCallsBack: bytes, counters and half-closing of a stream are not modelled.
- Registries of the endpoint, inbound and DNS transport managers, the service manager, connection tracking and interrupt groups: the same list bookkeeping again.
- Option parsing, protocols, rule matchers, sniffers, the cache file, the FakeIP store, process search, certificates, platform hooks and logging: no part of this model.
