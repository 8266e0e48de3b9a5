# Commercial offers: a verified model

This project models the commercial-offer machinery of the sales assistant: a Go backend that stores
offers, deals, discount policies and notifications, and a Python agent that talks to it by RPC over a
message broker. It states what the two promise together and proves it in Dafny; `dafny verify dfyconfig.toml`
checks the whole project.

How the parts are modelled:

- **Statements and transactions are atomic steps.** A table is a value, `Apply` is what one statement does
  to it, and a run is any sequence of statements. A service operation reads, then other actors' statements
  run, then it issues its own guarded statement; the statements in the gaps are parameters, so each
  contract covers every interleaving of a stale read and a guarded write. Database errors before and after
  a statement took effect are parameters too.
- **Objects that the source updates are classes.** Their methods are proved equal to the transition
  functions; the lemmas speak of all runs of those functions. The RPC client is cut at its awaits.
- **The outside world is an oracle.** The language model, the broker's choice of delivery, the clock,
  the answers of reads and every failure are inputs without restriction.
- **Machine integers are exact.** int64 sums and products are wrapped with `Text.Wrap64`; decimal texts are
  strings parsed as Go parses them.

One module per file: `OfferStore`, `OfferService`, `Percent`, `Pricing` (the offer and its arithmetic);
`BackendConsumer`, `Recommendations` (the backend's side of the RPC); `BackendRpc`, `AgentConsumer`,
`EventConsumer`, `Retry` (the agent's side); `DiscountTimeline` (policies); `PendingOffers`, `OfferGraph`,
`DiscountExtraction`, `OfferChat`, `OfferChain` (from the manager's sentence to the row);
`ConstructionDelay`, `Notifications` (delays); `Deals`, `Dialog`, `OfferPdf`; and the shared `Text`, `Bag`, `Domain`, `Wrappers`.

## Where the code does not do what one would expect

The model follows the code. These properties fail; each is shown by a lemma or a contract clause, and the exact
condition under which the code does meet the property is proved with it:

- A percent text may overflow int64 into the accepted range (`Percent.OverflowIsAccepted`; exactly when:
  `Percent.PlainReadingIff`), and a signed fraction such as `5.-5` is accepted
  (`Percent.SignedFractionIsAccepted`; exactly when: `Percent.AcceptedIsPlainIff`).
- A base price above 922337203685477 can be discounted to a higher price (`Pricing.OverflowRaisesPrice`;
  exactly when: `Pricing.DiscountExactIff`, `Pricing.SafePriceIff`).
- A payload that cannot be serialized leaves its entry in the table of pending calls
  (`BackendRpc.UnserializablePayloadLeaks`; exactly when: `BackendRpc.EmptyAtRestIff`).
- A redelivered offer.create is refused although its row exists, without a database fault exactly when the
  calculation, which is redone first, is refused or the request differs from the row (`OfferService.Create`).
- The manager is told that an offer was not saved although it was, exactly when the reply was lost or the row is
  not what the shown calculation led one to expect (`OfferGraph.SaveErrorDespiteRowIff`).
- A chat request that has called the backend for an offer is handled again, with new request ids, exactly when
  publishing its answer failed (`OfferChat.OfferChatAgent.HandleChat`).
- Resuming a pending offer can drop a newer one (`PendingOffers.ResumeMayDropNewer`): exactly when its key was
  remembered while the model was asked, not cleared since, and the new entry was neither evicted nor purged before
  the clear (`PendingOffers.ResumeDropsNewerIff`, and `OfferChat.OfferChatAgent.ResumePending` for the code's own clear).
- Retries of an event repeat recommendations that were already confirmed
  (`EventConsumer.RetriesDuplicateRecommendations`; when there is another attempt, and exactly when it repeats a
  confirmed one: `EventConsumer.ConfirmedRepeatedIff`).
- A due alert is lost for good, since repeating the update does not help, exactly when its claim takes effect but the
  service sees an error, or the deals cannot be listed after the claim
  (`Notifications.NotificationService.NotifyConstructionUpdate`, `Notifications.RepetitionIsSilent`); the note of one
  deal is lost exactly when its own insert fails (`Notifications.NoteLostIff`).
- Stale availability checks and updates of cancelled deals break the agreement of apartments and deals
  (`Deals.StaleCheckDoubleBooks`, `Deals.ClientRevivesCancelledDeal`; exactly when: `Deals.CouplingKeptIff`).

## Model

| member | source | states |
|---|---|---|
| OfferStore.ApplyKeeps | backend/internal/repository/offer.go:86-112 | Whatever statement the services send, the table invariant stays: ids and request ids unique, version n is the deal's n-th offer, and each status agrees with approval flag, approver, rejecter and reason |
| OfferStore.RunKeeps | backend/internal/repository/offer.go:226-268 | Every interleaving of such statements keeps that invariant; rows only move forward and their creation columns never change |
| OfferStore.RunKeepsPrices | backend/internal/repository/offer.go:86-104 | The prices of a row are those of its insert: over every run they add up, with the half-up discount, as calculated |
| OfferStore.OfferLifecycle | backend/internal/service/offer.go:223-242 | At any two moments of any run: an offer created without approval was within its creator's limit and stays approved, prices stay, a rejection has a non-blank reason, never both approver and rejecter |
| OfferStore.OneDecision | backend/internal/repository/offer.go:239-268 | An offer that needs approval is settled if and only if exactly one decision found it pending; it was a supervisor's, and the row names it |
| OfferStore.FinalStays | backend/internal/repository/offer.go:226-268 | A settled row is never changed again, and no later decision succeeds |
| OfferStore.RequestNamesOneRow | backend/internal/repository/offer.go:86-112 | At any two moments of a run, the rows found for a request id are the same row |
| OfferStore.ReachableVersions | backend/internal/repository/offer.go:88-97 | In every reachable table the versions of a deal are 1, 2, ..., n in insertion order |
| OfferStore.OfferRepository.InsertOffer | backend/internal/repository/offer.go:86-112 | The INSERT: a row with the next version, or nothing when the request id conflicts; the new table is Apply of the old |
| OfferStore.OfferRepository.UpdateToPending | backend/internal/repository/offer.go:226-237 | The guarded UPDATE: changes only a draft that needs approval, and tells whether it did |
| OfferStore.OfferRepository.UpdateToDecided | backend/internal/repository/offer.go:239-268 | The guarded UPDATE of a decision: changes only a pending offer, and tells whether it did |
| OfferStore.StatementsMean | backend/internal/repository/offer.go:226-268 | A statement changes an existing row only by marking a draft that needs approval, or by deciding a pending offer, found by its id: status, approver, rejecter and trimmed reason are the decision's, everything else stays |
| OfferStore.InsertMeans | backend/internal/repository/offer.go:86-112 | An insert appends one undecided row that says what was inserted, with its status, exactly if no row has the request id |
| OfferService.Calculate | backend/internal/service/offer.go:96-169 | Refused exactly with the first failing check; otherwise the answer is Sound: the parsed discount, the sum of the apartment's rounded price and the free units of its building, the half-up discount; the limit is that of the policy in force, or without one the configured limit of the actor's own role; approval is required exactly above it |
| OfferService.RefusalSpelledOut | backend/internal/service/offer.go:102-146 | Every check with its error, in order, in terms of the reads alone: who may ask, which apartment, policy, units and sums are accepted |
| OfferService.SoundMeans | backend/internal/service/offer.go:96-169 | A sound answer in terms of the reads alone: a supervisor or the deal's own manager, the limit of the role or the policy, the units of the selection in the apartment's building, their prices in the sum |
| OfferService.SoundIsUnique | backend/internal/service/offer.go:147-168 | Sound leaves nothing open: sound answers from the same data with equal discounts are equal |
| OfferService.AncillarySelection | backend/internal/service/offer.go:171-191 | A chosen unit is answered exactly if its id is positive and it is free, of the right kind and in the building; otherwise the first failing check is the error |
| OfferService.Create | backend/internal/service/offer.go:193-243 | For every interleaving and every database fault: an answer is the stored row of the request id; a request found again is answered with its row, or refused if deal, creator or units differ; a new row holds in each column what the reads and the request say, the parking place's price and the storage room's each in its own, unless another insert came in between; a refused calculation is the answer even if the row exists; a database error is reported as one |
| OfferService.StoreOffer | backend/internal/repository/offer.go:86-112 | Insert and read back: the answer is the stored row of the request id, the given one if the id was free |
| OfferService.AnswersAgree | backend/internal/service/offer.go:211-218 | Two answers to one request id, however far apart, are one offer, at most moved forward |
| OfferService.RequestApproval | backend/internal/service/offer.go:249-282 | For every interleaving: an answer is the stored row, past draft, for a supervisor or for the manager of the offer's own deal, who succeeds at once with a pending offer and from a draft unless it was settled in between; a failing guard is answered with the first error; a database error as one |
| OfferService.ApprovalRefusalSpelledOut | backend/internal/service/offer.go:249-273 | The guards with their errors, in order, in terms of the row, the actor and the deal |
| OfferService.MarkOrConfirm | backend/internal/service/offer.go:274-281 | An update that found no draft counts as success if the row turns out pending |
| OfferService.DecideOffer | backend/internal/service/offer.go:370-389 | A supervisor's approval, and his rejection for any reason that is not blank, succeeds whenever the offer is pending at the look and at the update; an answer reports the caller's own decision with his id and the trimmed reason; losing the race is reported as a wrong state |
| OfferService.DecisionRefusalSpelledOut | backend/internal/service/offer.go:370-383 | The guards with their errors, in order, in terms of role, reason and row |
| OfferService.DecisionLasts | backend/internal/repository/offer.go:239-268 | A decision that found the row pending is what the row says after any further statements |
| Percent.PercentStringToBasisPoints | backend/internal/service/offer.go:411-446 | The parser, loop and int64 arithmetic included, computes ParsePercent |
| Percent.ShapeParses | backend/internal/service/offer.go:411-446 | A text of the shape [+]whole[.tail] parses to its wrapped int64 value when that is within 0..10000, and is refused otherwise |
| Percent.AcceptedShape | backend/internal/service/offer.go:411-446 | Conversely every accepted text has that shape |
| Percent.PlainReadingIff | backend/internal/service/offer.go:421-445 | A plain decimal, with or without a plus, is read exactly, accepted if and only if at most 100 percent, unless its hundredfold wraps around 2^64 into the range; and exactly then it is misread |
| Percent.PlainReadingBelowBound | backend/internal/service/offer.go:421-445 | So up to a whole part of 92233720368547758 plain decimals are read exactly |
| Percent.OverflowIsAccepted | backend/internal/service/offer.go:441-445 | Every n <= 10000 has a huge decimal text that overflows to it and is accepted, such as 184467440737095516.16 for 0 |
| Percent.SignedFractionIsAccepted | backend/internal/service/offer.go:434-445 | The text 5.-5 is accepted as 495 basis points |
| Percent.AcceptedIsPlainIff | backend/internal/service/offer.go:411-446 | An accepted text is a plain decimal, up to a leading plus, exactly when no sign stands behind its first character |
| Percent.HundredfoldIsExact | backend/internal/service/offer.go:431-441 | Whole part times 100 plus the padded fraction is exactly a hundred times the decimal value |
| Percent.FormatParses | backend/internal/service/offer.go:448-464 | parse(format(v)) = v for every valid discount |
| Percent.FormatIsCanonical | backend/internal/service/offer.go:448-464 | Accepted texts have equal formatted strings exactly when they parse equal |
| Percent.FormatIsShortest | backend/internal/service/offer.go:448-457 | Whole percents are written without a point, and a fraction never ends in a zero |
| Percent.ForeignTextsParse | agent/app/agents/offer.py:271-273 | The JSON int, the JSON float and the NUMERIC column text of a discount all parse to it |
| Pricing.DiscountExactIff | backend/internal/service/offer.go:466-468 | The int64 discount is the half-up quotient if and only if base * d + 5000 fits into int64 |
| Pricing.SafePriceIff | backend/internal/service/offer.go:466-468 | No discount overflows exactly up to a base price of 922337203685477 |
| Pricing.DiscountIsNearest | backend/internal/service/offer.go:147-157 | Without overflow the discount is the integer nearest to base * d / 10000, the larger one on a tie, within 0..base |
| Pricing.FinalPriceSplits | backend/internal/service/offer.go:147-157 | Discount and final price add up to the base price |
| Pricing.OverflowRaisesPrice | backend/internal/service/offer.go:466-468 | One rouble above the bound a discount of 100 percent is negative and raises the price |
| Pricing.FinalPriceAntitone | backend/internal/service/offer.go:147-157 | A larger discount never raises the final price |
| Pricing.FinalPriceMonotone | backend/internal/service/offer.go:147-157 | A dearer object is never sold cheaper at the same discount |
| Pricing.BasePrice | backend/internal/service/offer.go:137-146 | The guarded loop answers the sum of the three prices exactly when it fits into int64 |
| Pricing.DecimalMoneyToInteger | backend/internal/repository/offer.go:60-84 | The money parser computes MoneyRounded, errors included |
| Pricing.MoneyIsHalfUp | backend/internal/repository/offer.go:60-84 | For a fraction of any length the result is floor(x + 1/2): cutting to two digits never changes the rounding |
| Pricing.WholeMoney | backend/internal/repository/offer.go:60-69 | Without a point the price is the number itself |
| Text.WrapIsCongruent | backend/internal/service/offer.go:441 | The int64 that the machine keeps is congruent modulo 2^64 to the exact value |
| BackendConsumer.BackendRpcConsumer.Dispatch | backend/internal/broker/backend_rpc.go:355-372 | The response echoes the request id; an envelope that does not fit its routing key changes nothing and is a VALIDATION_ERROR; any other has the outcome of its action for this payload (Done), and a success says exactly what is in the tables: the row's id and its present status |
| BackendConsumer.BackendRpcConsumer.CreateOffer | backend/internal/broker/backend_rpc.go:628-640 | An invalid payload changes nothing; a refused calculation is answered with its code; without a fault a free request id succeeds, and its row holds the payload's deal, creator, percentage, trimmed text and units; a taken one is answered with its row or FORBIDDEN |
| BackendConsumer.BackendRpcConsumer.ApproveOffer | backend/internal/broker/backend_rpc.go:642-651 | An invalid payload changes nothing; a failed guard is answered with its code; success gives the present status, past draft, of the offer asked for, for an actor who may act on its deal; without a fault only a settled offer is missed |
| BackendConsumer.BackendRpcConsumer.CreateRecommendation | backend/internal/broker/backend_rpc.go:596-612 | An invalid payload inserts nothing; a missing deal is DEAL_NOT_FOUND; a valid payload succeeds when nothing fails, and what is inserted, and stored if the id was free, is its deal, trimmed kind and trimmed text under the request id |
| BackendConsumer.FailureCodesTell | backend/internal/broker/backend_rpc.go:684-705 | Each code stands for exactly the named failures |
| BackendConsumer.BackendRpcConsumer.HandleDelivery | backend/internal/broker/backend_rpc.go:884-920 | Exactly one settlement: rejected if and only if an address or the request id is blank, and then nothing was changed or sent; acknowledged if and only if the reply was published; each reply goes to its own queue and correlation id and carries the outcome of the action for this payload |
| BackendConsumer.BackendRpcConsumer.Redeliver | backend/internal/broker/backend_rpc.go:884-920 | Over any number of redeliveries, with anyone's statements on both tables before each and in the gaps of each, every reply that went out is true at the end: it names the one row of the request, which has at most moved forward from the reported status |
| BackendConsumer.SuccessfulAnswersAgree | backend/internal/broker/backend_rpc.go:603-650 | Two successful answers to one request at any two moments name the same offer, with a status that only moved forward, or the same recommendation |
| BackendConsumer.TruthLasts | backend/internal/broker/backend_rpc.go:603-650 | No later statement makes a successful answer untrue |
| Recommendations.RecommendationRepository.Create | backend/internal/repository/recommendation.go:24-49 | Inserts or finds: the answer is the row of the request id, the old one if there was one, whatever is inserted between the two statements |
| Recommendations.FirstWins | backend/internal/repository/recommendation.go:29-49 | After any run of inserts a request id holds what its first insert said, and nothing if there was none |
| Recommendations.NameIsForEver | backend/internal/repository/recommendation.go:29-49 | The row that a request id names never changes |
| BackendRpc.EveryRun | agent/app/broker/backend_rpc.py:87-161 | In every run a call ends exactly once when it is no longer live, returns only a delivered reply with its own correlation id and request id, no future is completed twice, and at rest the table holds exactly the leaked entries |
| BackendRpc.EmptyAtRestIff | agent/app/broker/backend_rpc.py:104-161 | With no call running the table holds exactly the ids of the calls accepted since the last close with a payload that does not serialize; so it is empty if and only if there was none |
| BackendRpc.UnserializablePayloadLeaks | agent/app/broker/backend_rpc.py:104-118 | One payload that cannot be serialized leaves its table entry behind |
| BackendRpc.CallsMoveForward | agent/app/broker/backend_rpc.py:87-161 | Only its own steps touch a call, and each moves it strictly forward |
| BackendRpc.CallsCanEnd | agent/app/broker/backend_rpc.py:119-161 | A live call can always end by a failed publish or a timeout |
| BackendRpc.ReplyIsReturned | agent/app/broker/backend_rpc.py:163-207 | A matching reply delivered in time is what the call returns, whatever replies come later |
| BackendRpc.WaitingCallEnds | agent/app/broker/backend_rpc.py:135-207 | What the first reply, or a close, makes of a waiting call: the answer, or the error that belongs to bad JSON, a bad schema, another request id, a failure of the backend, or the close |
| BackendRpc.CallBegins | agent/app/broker/backend_rpc.py:87-118 | A call is refused exactly when the client is not started or the timeout not positive, each with its error, and otherwise is registered under its own id |
| BackendRpc.BackendRpcClient.BeginCall | agent/app/broker/backend_rpc.py:87-118 | call up to its first await: refusals, registration, and the leak |
| BackendRpc.BackendRpcClient.AfterPublish | agent/app/broker/backend_rpc.py:119-134 | call from the publish to the wait, or to its end |
| BackendRpc.BackendRpcClient.AfterWait | agent/app/broker/backend_rpc.py:135-161 | call from the wait to its end: timeout, id mismatch, failure, answer |
| BackendRpc.BackendRpcClient.HandleResponse | agent/app/broker/backend_rpc.py:163-207 | A reply completes the open future of its correlation id, malformed ones with an error; all others are ignored |
| BackendRpc.BackendRpcClient.CloseClient | agent/app/broker/backend_rpc.py:69-85 | close fails every open future of the table and empties it |
| AgentConsumer.AgentConsumer.HandleMessage | agent/app/broker/consumer.py:79-277 | Every delivery is settled exactly once and has the effect of Handled: reject, reply, retry copy or requeue, also when a publish raises although the broker has taken the message |
| AgentConsumer.RejectedIff | agent/app/broker/consumer.py:79-104 | A message is rejected exactly when it has no reply address, no correlation id, or no request id |
| AgentConsumer.RetriedIff | agent/app/broker/consumer.py:180-277 | Retried below count two are exactly timeouts, temporary errors of the model and three codes of the backend, by a copy with the count one higher; everything else is answered at the message's own address with the error's own code |
| AgentConsumer.AcknowledgedIff | agent/app/broker/consumer.py:262-315 | Acknowledged exactly when the one publish succeeds; otherwise the message is put back |
| Retry.CountsAre | agent/app/broker/consumer.py:317-325 | A missing header counts as 0, a number as that many but not less than 0, anything else as spent |
| AgentConsumer.AgentConsumer.RetryTemporaryError | agent/app/broker/consumer.py:279-315 | Below the limit a copy with count + 1 is published and the delivery acknowledged, or put back if the publish raises, whether the broker has taken the copy or not |
| AgentConsumer.RetryCopyIsSameRequest | agent/app/broker/publisher.py:25-44 | A retry copy is the same request with the count one higher: every field but the expiration and every other header is kept |
| AgentConsumer.RunsAreBounded | agent/app/broker/consumer.py:279-325 | Failed publishes left, doubtful ones threefold, plus attempts left is a strict termination measure: no run is longer |
| AgentConsumer.StuckMeansDrained | agent/app/broker/consumer.py:79-277 | A run that cannot go on has emptied the queue |
| AgentConsumer.ProcessedIsBounded | agent/app/broker/consumer.py:79-325 | A request is processed at most once per failed publish, three times per doubtful one, and once per attempt left on its messages |
| AgentConsumer.AtMostThreeAttempts | agent/app/broker/consumer.py:279-325 | With no failed publish a request starting at count 0 is processed at most three times, whatever else is queued, and has had exactly one reply when the queue is empty |
| AgentConsumer.RunConserves | agent/app/broker/consumer.py:79-325 | Requests queued plus requests answered, as a multiset, change only by the requests that doubtful publishes double |
| AgentConsumer.RunSettles | agent/app/broker/consumer.py:79-277 | A run settles as many deliveries as it has |
| AgentConsumer.DrainedMeansAnswered | agent/app/broker/publisher.py:11-23 | When the queue is empty every request has been answered at its own address and for its own ids, once and once more for each doubtful publish, and nothing else was replied |
| EventConsumer.DomainEventConsumer.HandleMessage | agent/app/broker/event_consumer.py:71-169 | One settlement per event: rejected, dropped, republished with a higher count, or acknowledged, after the calls of one workflow run; a copy may be out although its publish raised |
| EventConsumer.DeliveriesMean | agent/app/broker/event_consumer.py:71-169 | What one delivery does, in terms of the message and the attempt: rejected, dropped by a crash, replaced by a copy with the count one higher for a retryable error below two, or acknowledged |
| EventConsumer.EventsAreRouted | agent/app/broker/event_consumer.py:71-95 | A message is an event exactly under the routing key of its kind |
| EventConsumer.AttemptsAreBounded | agent/app/broker/event_consumer.py:139-176 | An event is handled at most as often as its messages have attempts left |
| EventConsumer.AtMostThreePerEvent | agent/app/broker/event_consumer.py:71-176 | An event published with count 0 is handled at most three times and causes at most 3k create calls for a deal listed live at most k times, none for a deal never listed live |
| EventConsumer.RepeatsIff | agent/app/broker/event_consumer.py:96-169 | The create calls of an event for a deal, failed ones included, exceed those of a single attempt exactly when two attempts called for it; every attempt but the last asked for a retry with a count not spent and a copy taken, and the event is over exactly when the last one did not |
| EventConsumer.ConfirmedRepeatedIff | agent/app/broker/event_consumer.py:96-169 | A recommendation confirmed in an attempt is followed by another attempt exactly when an item behind it stops the run, the count is not spent and the copy is taken; it is repeated exactly when an item that a run gets to, behind it or in a further attempt, calls for the same deal |
| EventConsumer.NothingRepeated | agent/app/broker/event_consumer.py:125-137 | If no attempt asks for a retry, the count is spent or no copy is taken, an event is handled at most once and repeats nothing |
| EventConsumer.RetriesDuplicateRecommendations | agent/app/broker/event_consumer.py:96-137 | The bound is reached: a confirmed deal gets a recommendation per attempt when the deal after it keeps timing out |
| ConstructionDelay.ConstructionDelayWorkflow.Run | agent/app/agents/construction_delay.py:42-102 | For every list and every pattern of failures the result reports exactly how far the run got, and the create calls are those of the prefix it reached |
| ConstructionDelay.ItemsMean | agent/app/agents/construction_delay.py:59-118 | Which items stop a run, fail for good, are counted and are called for, from the deal's status and the failure's kind and code |
| ConstructionDelay.ErrorsMean | agent/app/agents/construction_delay.py:104-124 | The error a failure is reported as, and exactly which failures are retryable |
| ConstructionDelay.DoneIff | agent/app/agents/construction_delay.py:57-102 | DONE exactly when all live deals were confirmed, and then the count is their number |
| ConstructionDelay.PartialIff | agent/app/agents/construction_delay.py:57-102 | ERROR exactly when some live deal failed retryably; PARTIAL exactly when some failed for good and none retryably |
| ConstructionDelay.ReachedIsPrefix | agent/app/agents/construction_delay.py:57-95 | The run works through the prefix up to and including the first retryable failure |
| ConstructionDelay.CallsPerRun | agent/app/agents/construction_delay.py:57-90 | A run creates for a deal at most as often as it is listed live |
| DiscountTimeline.QueryAnswersHistory | backend/internal/repository/discount_policy.go:85-102 | In every reachable table and at every moment the interval query answers the entry of the plain history with the greatest (valid_from, order of creation) |
| DiscountTimeline.InForceIsGreatest | backend/internal/repository/discount_policy.go:88-97 | That entry outranks every applicable one and is missing only if none applies |
| DiscountTimeline.TableMirrors | backend/internal/repository/discount_policy.go:43-77 | After any sequence of Create calls, backdated ones included, each row records its call |
| DiscountTimeline.ClosedExactly | backend/internal/repository/discount_policy.go:49-54 | A row is closed by the first later call of its key that begins later, at the moment when that one begins, and stays open exactly if there is none |
| DiscountTimeline.VersionsCount | backend/internal/repository/discount_policy.go:56-66 | The n-th call for a building and role has version n |
| DiscountTimeline.NoGap | backend/internal/repository/discount_policy.go:85-102 | Once a policy of a key has begun there is an answer at every later moment |
| DiscountTimeline.CreateIsLocal | backend/internal/repository/discount_policy.go:43-77 | A Create changes only answers of its own key, from its start on, where nothing later has taken over |
| DiscountTimeline.DiscountPolicyRepository.Create | backend/internal/repository/discount_policy.go:43-77 | Close and insert extend the history by the call |
| DiscountTimeline.DiscountPolicyRepository.GetActiveMax | backend/internal/repository/discount_policy.go:85-102 | Answers the percentage in force in the history, or none |
| PendingOffers.TableInvariant | agent/app/agents/offer.py:275-327 | After any sequence of operations: at most 1000 entries with distinct keys; a key has exactly the request last remembered for it and not cleared since, unless that was evicted or had expired at the last purge |
| PendingOffers.GetAnswersHistory | agent/app/agents/offer.py:304-311 | get answers the last remembered, not cleared request, unless it was evicted or is more than 900 seconds old |
| PendingOffers.UnboundedWhenNeverFull | agent/app/agents/offer.py:275-311 | If no remember finds the table full, get answers as an unbounded table with a TTL does |
| PendingOffers.EvictionIsOfOldest | agent/app/agents/offer.py:288-294 | An eviction happens only beside 1000 unexpired entries and takes one no newer than any of them |
| PendingOffers.ResumeDropsNewerIff | agent/app/agents/offer.py:147-171 | What the clear of a resume takes out of the table: if the last remember or clear of the key in between is a remember, that newer request, unless it was evicted or had expired at the last purge; otherwise the entry that was there when the wait began, or nothing |
| PendingOffers.ResumeClearsItsOwn | agent/app/agents/offer.py:147-171 | Without a remember of the key in between, the clear of a resume takes only the entry that was there, or nothing |
| PendingOffers.ResumeMayDropNewer | agent/app/agents/offer.py:153-161 | One remember in between is enough: the clear drops it from the table |
| PendingOffers.OfferAgent.RememberPending | agent/app/agents/offer.py:275-302 | Purge, evict if full, insert; nothing without a session |
| PendingOffers.OfferAgent.GetPending | agent/app/agents/offer.py:304-311 | Purge, then look up |
| PendingOffers.OfferAgent.ClearPending | agent/app/agents/offer.py:313-317 | Pop one key |
| PendingOffers.OfferAgent.PurgeExpiredLocked | agent/app/agents/offer.py:319-327 | Listing the expired keys and popping them removes exactly the expired entries |
| OfferGraph.OfferGraph.Run | agent/app/graphs/offer_graph.py:80-125 | For every behaviour of backend and model the graph ends, FORBIDDEN is raised exactly when it was met, and otherwise message, error, offer id, approval state and number of calls are those the answers entail; calls come in a fixed order, each at most once, create only with the calculated discount and the generated text, approval only for the created offer |
| OfferGraph.OfferGraph.Execute | agent/app/graphs/offer_graph.py:127-334 | Each node with its route leads to the next stage of the run or to its end |
| OfferGraph.OfferGraph.Create | agent/app/graphs/offer_graph.py:224-268 | Saved only if the backend reported the expected status, else a save error; FORBIDDEN is raised |
| OfferGraph.OfferGraph.AskApproval | agent/app/graphs/offer_graph.py:270-302 | Sent only if the backend reported this offer as pending |
| OfferGraph.NotesAreTrue | agent/app/graphs/offer_graph.py:254-302 | Each paragraph appears in the message exactly when the answers make it true: the backend's own calculation, the model's own text, saved, sent, and each failure; the message is never empty |
| OfferGraph.StagesMean | agent/app/graphs/offer_graph.py:127-302 | How far a run gets, in terms of the answers alone |
| OfferGraph.SavedIsFinal | agent/app/graphs/offer_graph.py:254-260 | An offer reported as saved is approved in the table and stays so with its prices, whatever runs later |
| OfferGraph.SentAwaitsSupervisor | agent/app/graphs/offer_graph.py:279-290 | An offer reported as sent stays pending until exactly one supervisor decides it |
| OfferGraph.SaveErrorIff | agent/app/graphs/offer_graph.py:249-268 | The manager reads that saving failed exactly when the reply to offer.create was lost or unusable, or reports another status than the shown calculation leads one to expect |
| OfferGraph.SaveErrorDespiteRowIff | agent/app/graphs/offer_graph.py:249-268 | For an offer that is stored: exactly if its reply was lost or the row is not the expected draft or approved offer; for one that has not moved on, exactly if the reply was lost or the two calculations disagree about the approval |
| DiscountExtraction.ExtractDiscount | agent/app/agents/offer.py:198-252 | For every model: a discount results exactly if nothing is mentioned (then 0) or the extracted one equals every percentage of the text and all are within 0..100 with at most two decimals; which reply, or which exception, else; at most two questions, none if the text is rejected at once |
| DiscountExtraction.ValidateExplicitValues | agent/app/agents/offer.py:261-269 | The complaint is about the first percentage out of range or too precise |
| DiscountExtraction.ComplaintsMean | agent/app/agents/offer.py:261-269 | Acceptable is 0..100 with at most two decimals; the range is looked at first |
| DiscountExtraction.DistinctIsSingle | agent/app/agents/offer.py:248-250 | The set of values has the requested one as its only member exactly when all values equal it numerically |
| DiscountExtraction.DiscountReachesBackend | backend/internal/service/offer.go:411-446 | The accepted discount is within 0..100 with at most two decimals, and its texts from the agent parse in the Go service to exactly a hundred times it |
| DiscountExtraction.IntegralIff | agent/app/agents/offer.py:271-273 | The agent sends an int exactly for whole percents, and then that many |
| OfferChain.ShownFiguresAreStored | agent/app/graphs/offer_graph.py:160-247 | A row built from the create request holds the percentage typed and shown, and with unchanged data the very figures shown, each in its own column |
| OfferChain.LimitIsPolicyInForce | backend/internal/service/offer.go:391-409 | The limit applied is the percentage of the policy in force in the plain history |
| OfferChain.DraftIffAboveLimit | backend/internal/service/offer.go:223-242 | The row began as a draft exactly if the percentage typed exceeds the limit in force, else approved; without a policy that limit is the configured one of the actor's role |
| OfferChain.StoreShownOffer | agent/app/graphs/offer_graph.py:239-245 | offer.create as the graph sends it, under every interleaving: the row answered for a request id that was free holds the percentage typed, is a draft exactly above the limit and shows the figures shown |
| OfferChain.RepliesMean | agent/app/graphs/offer_graph.py:249-302 | The agent reads exactly FORBIDDEN as forbidden and exactly the offers as replies |
| OfferChain.ManagerReadsTheTruth | agent/app/graphs/offer_graph.py:254-302 | With answers that come from the backend: what the manager reads as saved is an approved row for ever, what he reads as sent awaits a supervisor until exactly one decides |
| OfferChat.OfferChatAgent.RunGraph | agent/app/agents/offer.py:173-196 | For every world the outcome of a graph run is an answer, or FORBIDDEN exactly when the backend said so, neither of which is retried; its calls are in order and about this deal, manager, selection and the decided discount, at most one of them offer.create, and all that the answers call for |
| OfferChat.CallsAreAbout | agent/app/graphs/offer_graph.py:127-302 | Every call of a run carries the run's own deal, manager, discount and selection; offer.create carries the discount that the calculation echoed and the text of the model |
| OfferChat.OfferChatAgent.Generate | agent/app/agents/offer.py:105-145 | The backend is called exactly if the message settles a discount, for a hundred times that discount, the message's deal, manager, intent and units, after the pending offer was cleared; otherwise the request itself is remembered, or the model's exception is passed on; retried only for the latter |
| OfferChat.OfferChatAgent.ResumePending | agent/app/agents/offer.py:147-171 | Nothing without an unexpired pending offer; otherwise the backend is called exactly if the follow-up settles a discount, for that discount and the pending request's deal, intent and units, after the clear; retried only for an exception of the model, with the offer still pending; the clear takes the entry found, a newer one, or nothing, as ResumeDropsNewerIff says |
| OfferChat.OfferChatAgent.HandleChat | agent/app/broker/consumer.py:139-277 | A pending offer is resumed, else the router's choice decides, and the outcome is settled as the consumer settles it; a delivery that has called the backend for an offer is answered and never copied for a retry, whatever failed; it is handled again exactly if publishing the answer failed; at most one offer.create per delivery |
| OfferChat.DecidedPoints | agent/app/agents/offer.py:271-273 | Every decided discount is a whole number of basis points |
| Notifications.FingerprintIsInjective | backend/internal/service/notification.go:101-111 | Fingerprints of storable updates are equal exactly when the states are, whatever the reason says |
| Notifications.AlarmIsOfState | backend/internal/service/notification.go:101-102 | The alarm test depends on the state alone |
| Notifications.EntriesMean | backend/internal/service/notification.go:101-111 | Two updates count as the same exactly if status, risk level, days and trimmed reason agree, a missing delay being none; which updates are alarming |
| Notifications.AlertsAreAlarmingChanges | backend/internal/service/notification.go:111-119 | Over any updates of many progress ids the batches of each id are the alarming entries of its history without consecutive equal states, in order |
| Notifications.RepetitionIsSilent | backend/internal/service/notification.go:117-124 | Once claimed, an update is not due again however often it is repeated, with any updates of other ids in between; what is due next is the first alarming update that differs |
| Notifications.NotificationService.ClaimConstructionState | backend/internal/repository/notification.go:22-36 | The upsert tells whether the stored fingerprint differed and stores the new one |
| Notifications.NotificationService.NotifyConstructionUpdate | backend/internal/service/notification.go:96-183 | The claim is made before the deals are read; an update is fanned out exactly when it is due, its claim is answered and the listing succeeds; a due update is neither fanned out nor due any more exactly when its claim took effect unanswered or the listing failed after an answered claim; the error is reported |
| Notifications.NoteLostIff | backend/internal/service/notification.go:156-180 | Among the notes of a fan-out the deal has its note, for its client, about this update and of the right kind, unless its insert failed; then no note mentions it |
| Notifications.NotesAreCounted | backend/internal/service/notification.go:156-170 | There are as many notes as inserts that did not fail, each for one of those deals |
| Notifications.MailedIff | backend/internal/service/notification.go:172-179 | A mail goes to an address exactly for an answered insert whose client has it |
| Deals.LastStepDecides | backend/internal/repository/deal.go:286-306 | After every run the status of an apartment, and of a chat, is that which belongs to the status of the last step on it, and otherwise the one of the start |
| Deals.StepsMean | backend/internal/repository/deal.go:94-313 | A booking appends one pending deal if its references exist; an update writes the status of one deal; nothing else changes a deal |
| Deals.CouplingKeptIff | backend/internal/repository/deal.go:94-144 | One step keeps free, booked and sold in line with the live and completed deals if and only if a booking finds the apartment free and a cancelled deal is touched only while its apartment is free |
| Deals.RunsStayCoupled | backend/internal/repository/deal.go:249-313 | Over whole runs of such steps from free apartments every apartment stays in line with its deals |
| Deals.LiveUpdatesAreSane | backend/internal/repository/deal.go:249-313 | Updates of pending or contract deals always keep it |
| Deals.StaleCheckDoubleBooks | backend/internal/service/deal.go:89-112 | Two bookings that both saw the apartment free book it twice, and cancelling one frees it under the other |
| Deals.ClientRevivesCancelledDeal | backend/internal/service/deal.go:165-171 | The service lets a client revive a cancelled deal, which double-books an apartment booked anew |
| Deals.DealService.InsertDeal | backend/internal/repository/deal.go:94-144 | The booking transaction |
| Deals.DealService.WriteStatus | backend/internal/repository/deal.go:249-313 | The update transaction, which does not look at the present status |
| Deals.DealService.CreateDeal | backend/internal/service/deal.go:68-112 | Succeeds exactly for a manager or supervisor whose discount, client and chat pass, with the apartment free at the look and the references in place at the insert, and then books this very deal; otherwise refused, without any change, with the first failing guard; leaves everything in line exactly if the apartment is still free at the insert |
| Deals.DealService.UpdateDealStatus | backend/internal/service/deal.go:156-207 | Succeeds exactly for a supervisor, the deal's own manager, or its client who accepts or cancels, and then writes the status; otherwise refused, without any change, with the first failing guard; leaves everything in line exactly if the step is sane where it is taken |
| Dialog.SortInPlace | backend/internal/service/dialog_analysis.go:48-53 | Sorts the array in place to Sort of its contents |
| Dialog.SortSorts | backend/internal/service/dialog_analysis.go:48-53 | Sort is an ordered permutation |
| Dialog.GetDealMessages | backend/internal/service/dialog_analysis.go:31-76 | Answers id, sender and body of each message of the window, in order; the empty list without a chat; or the read error |
| Dialog.WindowIsNewest | backend/internal/service/dialog_analysis.go:48-75 | A message is in the window exactly if it is a client's or manager's and fewer than limit such messages are newer; the window is in strict (time, id) order and has min(limit, n) messages |
| Dialog.ChooseTarget | agent/app/agents/dialog.py:61-91 | The selected text, else the last client message, else NO_CLIENT_MESSAGES; an invalid history is BACKEND_RESPONSE_ERROR |
| Dialog.ReplyTarget | agent/app/agents/dialog.py:78-90 | The text answered is the body of the client message of the whole history with the greatest time, then id; none is found exactly when each has at least 30 newer dialog messages |
| OfferPdf.NewOfferPdfModel | backend/internal/handler/offer_pdf.go:66-103 | The document has one line for the apartment and one, with its price, for each unit of the offer; for an offer priced by the service the lines sum to the base price, the apartment's line is its own price, the printed discount is the one taken off, and up to the safe bound the difference is the final price |
| OfferPdf.StoredOffersAddUp | backend/internal/handler/offer_pdf.go:72-103 | In every reachable table the price lines of an offer sum to its base price, the printed discount is the one taken off, and up to the safe bound their difference is the final price |
| OfferPdf.FormatMoney | backend/internal/handler/offer_pdf.go:410-423 | The grouping loop computes MoneyText |
| OfferPdf.GroupingKeepsDigits | backend/internal/handler/offer_pdf.go:415-418 | Without its spaces the text is the number again |
| OfferPdf.SpacesAreEveryFourth | backend/internal/handler/offer_pdf.go:416-418 | Spaces stand exactly at every fourth place from the right |
| OfferPdf.MoneyTextInjective | backend/internal/handler/offer_pdf.go:410-423 | Different amounts never print alike |

## Left out

- BackendConsumer.BackendRpcConsumer.Dispatch: spells out offer.create, offer.request_approval and recommendation.create; the reading actions, offer.calculate and client.update_preferences are one oracle, since they touch neither table.
- OfferService.Create: a database error is one kind of error; the moments between the reads of one calculation are not told apart, as each read's answer is arbitrary.
- OfferStore.OfferRepository.InsertOffer: the CHECK that a final price is not negative refuses an offer whose price arithmetic has overflowed below zero, which needs ancillary prices near 2^63; the model stores the row.
- DiscountExtraction.ExtractDiscount: starts from the percentages found in the text and from whether it mentions a discount; the regular expression and case folding are not modelled.
- DiscountExtraction.DiscountReachesBackend: takes the JSON text of a float with at most two decimals to be its shortest decimal, as Python and Go print it.
- AgentConsumer.AgentConsumer.HandleMessage: trims with Go's TrimSpace, which keeps the separators U+001C to U+001F that Python's str.strip removes.
- Dialog.SortInPlace: is an insertion sort; the library's stable sort differs only in how it gets to the same result, which is unique because ids are.
- OfferChat.OfferChatAgent.Generate: the operations of other requests on the pending offers are placed where the agent waits for the model; its other awaits do not touch them.
- Notifications.FingerprintIsInjective: status and risk are the values that the column types admit, since the row is written before its alert.
- Notifications.NotificationService.NotifyConstructionUpdate: titles and message texts are reduced to kind, stage and progress id; a process that dies between the claim and the notes is not modelled.
- Deals.DealService.CreateDeal: prices and discount percentages are binary floating point and enter as the outcome of their checks; system messages, notifications and mails of the deal service are not modelled.
- Deals.LastStepDecides: covers the steps of the deal repository; other code that edits apartments or chat sessions directly is not part of the model.
- BackendRpc.BackendRpcClient.BeginCall: takes a correlation id that is not in use, as a fresh UUID is.
- BackendRpc.EveryRun: connection set-up, the reply queue's declaration and the consumer tag are not modelled.
- AgentConsumer.DrainedMeansAnswered: speaks of the messages queued at the start; arrivals during a run would only add to both sides. A retry copy is taken to come back to the same queue, and settling a delivery to succeed.
- EventConsumer.AtMostThreePerEvent: the broker does not redeliver what has been settled, and an unsettled event after a lost connection is not modelled; the continuation after an approved or rejected offer is an oracle.
- OfferPdf.NewOfferPdfModel: covers the price lines and the discount; names, dates, conditions and drawing are not modelled.
- OfferStore.OfferRepository.UpdateToDecided: time stamps are not modelled.
- Isolation levels of the database: each statement or transaction is one atomic step. The second of two concurrent inserts that read the same maximal version of a deal violates a unique index, which is the fault of a failing statement. Deletions that cascade are not modelled.
- JSON and schema decoding: the model starts from decoded records and from the fact that decoding failed.
- HTTP handlers, authentication, reading and listing of offers for an actor: plumbing, and easy members.
- offer.generate_pdf over RPC: the backend binds no such routing key, so there is no peer.
- The React frontend, SMTP, the language model itself and prompt texts: foreign calls and content.
- CRUD for complexes, buildings, apartments, competitors, ERP and reminders: only easy members.
