# FundKit's money pipeline, verified

A Dafny model of how FundKit turns an order into a position: the order table and its
transactional outbox, the relays that carry the outbox to Kafka, the portfolio consumer that
projects executed orders onto its ledger, the arithmetic of a position, and the printer and the
two parsers of rupee amounts.

The code that changes state in place is modelled by classes and methods with the same fields,
branches and loops (`OrderRepository`, `OrderService`, `OutboxRepository`, `Relay`, `Ledger`,
`Projection`, `Consumer`). Concurrency is modelled by small-step systems, each a state, a set of
steps, an `Enabled` predicate and an `Exec` function, whose runs are arbitrary sequences of enabled
steps:

| system | actors |
|---|---|
| `OrderSystem` | API requests and lifecycle workers over stale reads, with expiring reservations; an actor may stop at any point |
| `Relays` | any number of relays with open transactions, which may abort after Kafka has seen the messages; inserts and requeues beside them |
| `Delivery` | one partition: settle, park, failed park, failed commit, rebalance that keeps the ledger |
| `Pipeline` | orders, relays and a ledger that is handed any logged message, in any order, any number of times, at any price |
| `EndToEnd` | orders, relays and the consumer of `Delivery` on the log the relays write; each of its runs is shown to be a run of `Pipeline` and of `Delivery` |

The methods are tied to the systems: a drain, a service call, a processed message and the fetch
loop each return the ghost sequence of steps they are, and the state they leave is the state that
run leads to; a batch returns the broker's answers, from which `RelayRuns.BatchIsARun` builds its
steps. Between the read and the write of a service call other actors may run; what they leave is a
parameter. So what is proved of every run holds of the methods.

Calls into databases, Kafka, Redis and the NAV feed appear as parameters that say how each call
turns out (`Answer`, `Faults`, `Fault`, `Luck`, `NavWeather`); every result is for all of them. A
refused publish may or may not have stored its record. The ledger may open with positions.

## Where the code promises less than its comments

Each is kept as the code has it, shown by a counterexample, and met by the condition under which
the promise holds, which is an equivalence.

- Per-order delivery order (outbox_repository.go:76-79) can be lost to a second relay that skips
  locked rows and to a requeue: `DeliveryOrder.TwoRelaysOvertake`, `DeliveryOrder.RequeueCanBreakOrder`.
  `DeliveryOrder.CareIsExact` says exactly when a step is harmless, whatever careful steps follow: a claim
  when it leaves behind no undelivered older PENDING row of an order it takes, a requeue when no
  undelivered retired row is older than one that was delivered or that an open batch is still to deliver.
- A failed park leaves the offset alone (consumer/kafka.go:292-295), but the next successful commit
  passes it: `Delivery.HeldOffsetIsPassed`. `Delivery.CommittedIsAccountedFor` needs only that held
  messages are rewound to before anything after them is committed; `Delivery.CommitIsSafeIff` says,
  before a commit is made, exactly when it is safe.
- A cancelled wait is said to let the event be redelivered after a restart (consumer/kafka.go:271-273).
  It is parked instead, as `retries_exhausted`, after as little as one try, and acknowledged exactly
  when park and commit go through: `Consumer.CancelledWaitIsParked`. Fewer than all attempts were made exactly when a wait was
  cancelled: `Consumer.ExhaustedIff`.
- Repeating EXECUTED is tolerated so that replay stays idempotent (order.go:82-84), but it writes a
  second event with its own id: `OrderSystem.ExecutedTwice`. Inside the dedup window an order whose
  executions the ledger could take can take effect twice exactly when it was executed twice:
  `Executions.SecondExecutionIff`.
- `Delete` removes "an order that has not yet started processing" (order_service.go:163), but checks
  and then deletes unconditionally: `OrderSystem.DeleteOfAMovedOrder`. It removes a PENDING order
  exactly when nobody wrote its status since the check: `OrderSystem.DeletesPendingIff`.
- Outside the window an event takes effect twice, whatever the bound: `Window.ForgottenAppliesTwice`.
  The bounded dedup set is as good as an unbounded one exactly on the deliveries that
  `Window.WindowRefinesSet` and `Window.WindowKeptIff` describe.
- `rupeesToPaise` says it mirrors `ParseRupees` (format.ts:55). Below 2^53 paise,
  `RupeeTwins.TwinsAgree` says exactly when Go agrees on what TypeScript accepts
  (`RupeeTwins.TabInside` is a text on which it does not), and `RupeeTwins.TwinsAgreeOnAccepted`
  exactly when TypeScript agrees on what Go accepts (`RupeeTwins.LonePoint` and
  `RupeeTwins.SecondSign` are two on which it does not). From 2^53 on they part over every odd
  amount: `RupeeTwins.OddAmountsAreRounded`.

## Model

| member | source | states |
|---|---|---|
| EndToEnd.LedgerIsTheOrders | portfolio-service/internal/repository/holdings.go:162-188 | in every run of orders, relays and consumer in which redeliveries stay inside the window, each position holds and has released exactly what it opened with plus the amounts of all its EXECUTED buy rows, less those whose event has not taken effect |
| EndToEnd.MissingIsUnderWay | portfolio-service/internal/consumer/kafka.go:163-217 | where held messages are rewound to, a PROCESSED fill without effect is on the log, and each copy of it is parked or not yet acknowledged |
| EndToEnd.CaughtUpLedger | portfolio-service/internal/repository/holdings.go:162-188 | so once all is shipped and committed with nothing parked, held plus released cost is the opening cost plus all EXECUTED buy rows |
| EndToEnd.CommittedFillArrived | portfolio-service/internal/consumer/kafka.go:163-217 | an executed fill whose record lies below the committed offset has taken effect or is on the dead-letter log |
| EndToEnd.ProcessedIsLogged | order-service/internal/repository/outbox_repository.go:104-117 | every PROCESSED row has its record at some offset of the consumer's log |
| EndToEnd.ArrivedOnce | portfolio-service/internal/repository/holdings.go:162-188 | inside the window no event takes effect at two deliveries of such a run |
| EndToEnd.IsAPipelineRun | portfolio-service/internal/consumer/kafka.go:142-217 | orders, relays and consumer together make a run of the pipeline, so all that is proved of it holds |
| EndToEnd.IsADeliveryRun | portfolio-service/internal/consumer/kafka.go:142-217 | and the consumer's turns make a run of the delivery protocol over the log the relays have written, which may grow meanwhile |
| Executions.SecondExecutionIff | order-service/internal/domain/order.go:82-97 | an order whose executions the ledger could take can, without moving any further, take effect twice exactly when its history holds two executions |
| Executions.OneExecutionOneEffect | order-service/internal/domain/order.go:82-97 | inside the window an order of any type that was executed once moves the ledger at most once in every reachable state |
| Executions.NothingIsStranded | order-service/internal/repository/outbox_repository.go:55-184 | from every state of the pipeline, whatever is retired, claimed or open, relay steps alone, with batches of any fixed size, can still put every committed event on the log |
| Pipeline.EachEventOnce | portfolio-service/internal/repository/holdings.go:162-188 | over every run of order steps, relay steps and redeliveries that stay inside the dedup window, two deliveries that change the ledger carry the events of two different outbox rows, so each row takes effect at most once |
| Pipeline.EachBuyCountsOnce | portfolio-service/internal/repository/holdings.go:155-188 | over the same runs and from any opening ledger, held plus released cost of a position is what it opened with plus the amounts of the distinct EXECUTED buy rows of the outbox that took effect, each once |
| Pipeline.MoneyIsConserved | portfolio-service/internal/domain/portfolio.go:133-182 | over every run, window or not: held plus released cost equals the opening cost plus the buys that took effect, cost is never negative, units balance to one epsilon a close |
| Pipeline.EffectsComeFromExecutions | portfolio-service/internal/service/portfolio_service.go:115-141 | every movement put to the ledger has the id, user, fund, side and amount of exactly one committed EXECUTED outbox row |
| Pipeline.EffectsFollowTheLifecycle | order-service/internal/domain/order.go:83-97 | the order behind such a movement has the history PENDING, PROCESSING, then EXECUTED only |
| Pipeline.RunKeeps | order-service/internal/repository/outbox_repository.go:55-123 | order, relay and ledger invariants hold together in every reachable state of the pipeline |
| OrderSystem.OutboxIsExactHistory | order-service/internal/repository/order_repository.go:70-123 | in every reachable state, under stale reads and racing writers, an order's outbox rows in id order are a legal walk from PENDING that ends at the live row's status |
| OrderSystem.PlacementIsIdempotent | order-service/internal/service/order_service.go:75-127 | between two successful placements of one key lies a removal of that key's order, whatever expires, races or rolls back; live orders never share a key |
| OrderSystem.StepKeeps | order-service/internal/service/order_service.go:81-246 | every step of every actor, failures included, keeps the order invariant |
| OrderSystem.ExecutedTwice | order-service/internal/domain/order.go:92-93 | an executed order can be executed again, which appends a second EXECUTED event and changes nothing else |
| OrderSystem.DeleteOfAMovedOrder | order-service/internal/service/order_service.go:164-173 | a delete that saw PENDING still goes through after a worker has moved the order to PROCESSING |
| OrderSystem.DeletesPendingIff | order-service/internal/service/order_service.go:163-173 | over every run, an order about to be deleted is still PENDING exactly when no worker and no operator wrote its status since the delete read it |
| OrderSystem.PendingIff | order-service/internal/repository/order_repository.go:88-123 | an order is PENDING exactly while its creation is all its history |
| OrderService.OrderService.Place | order-service/internal/service/order_service.go:81-127 | whatever others do between reservation and insert: succeeds exactly on a free key, a free index and a sound write; then order, creation event, reservation and worker are there; otherwise neither order nor event is, and the reservation is given back; the call is a run of the actor system |
| OrderService.OrderService.UpdateStatus | order-service/internal/service/order_service.go:139-161 | whatever others do between read and write: refuses an illegal edge, loses to whoever moved the order first, and otherwise moves row and history together; the call is a run of the actor system |
| OrderService.OrderService.Delete | order-service/internal/service/order_service.go:164-183 | refuses an order it does not read as PENDING; otherwise removes it whatever others have made of it, and releases its key; the call is a run of the actor system |
| OrderService.OrderService.ProcessLifecycle | order-service/internal/service/order_service.go:205-246 | whatever others do around its two writes: writes only onto the status it expects, PROCESSING and then the final status by the amount, confirms the key at the end, and leaves the others' tables alone where it yields |
| OrderService.OrderService.StartLifecycle | order-service/internal/service/order_service.go:194-246 | the worker with others in between is a run of the actor system |
| OrderService.CarriedThrough | order-service/internal/service/order_service.go:217-239 | left alone and without failures it carries a PENDING order through PROCESSING to EXECUTED, or FAILED on an amount that is not positive, and the history grows by exactly these two |
| OrderService.CarriedRuns | order-service/internal/service/order_service.go:205-246 | the worker's effect, whatever others do and however its writes fare, is that of a run of the actor system |
| OrderService.PlaceRollsBack | order-service/internal/service/order_service.go:105-111 | a failed insert followed by the release gives the reservation back and leaves the tables to the others, as a run |
| OrderRepository.Repository.CreateWithOutbox | order-service/internal/repository/order_repository.go:35-55 | order and event are inserted together or not at all; the unique index decides over duplicates |
| OrderRepository.Repository.UpdateStatusWithOutbox | order-service/internal/repository/order_repository.go:88-123 | writes exactly when the row still has the expected status; the event carries the updated row; a failure leaves both tables alone |
| OrderRepository.Repository.Delete | order-service/internal/repository/order_repository.go:125-134 | removes the row whatever its status and leaves the outbox alone |
| OrderRepository.UpdateKeepsHistory | order-service/internal/repository/order_repository.go:82-123 | a compare-and-set along a legal edge keeps the exact history |
| OrderHistory.HistoryInserted | order-service/internal/domain/outbox.go:87-110 | a new row is the newest entry of its own order's history and no entry of any other, even when it commits behind a larger id |
| OrderHistory.HistoryOfPayloads | order-service/internal/repository/outbox_repository.go:85-117 | what relays write cannot change any order's history |
| Orders.TerminalIsForever | order-service/internal/domain/order.go:83-97 | a legal walk never leaves a terminal status |
| Orders.ExecutionPath | order-service/internal/domain/order.go:86-97 | EXECUTED is reached only behind PENDING and PROCESSING, and only EXECUTED follows it |
| Outbox.ClaimMembers | order-service/internal/repository/outbox_repository.go:63-71 | a claim holds unlocked PENDING rows in id order, at most the limit |
| Outbox.ClaimOldest | order-service/internal/repository/outbox_repository.go:63-71 | a claim passes over no older unlocked PENDING row |
| Outbox.ClaimShort | order-service/internal/repository/outbox_repository.go:63-71 | a claim below the limit took every unlocked PENDING row |
| Outbox.HandledTallied | order-service/internal/repository/outbox_repository.go:83-101 | each handled row is published or of a blocked aggregate, published rows were sent, none is both published and refused, the head is never skipped |
| Outbox.HandledAccounted | order-service/internal/repository/outbox_repository.go:83-101 | nothing is published, refused, sent or blocked but on account of a handled row, and there is an error exactly when a row was refused |
| Outbox.BatchSpends | order-service/internal/repository/outbox_repository.go:85-102 | every committed non-empty batch strictly lowers the attempts left over all PENDING rows, whatever rows others hold and the broker answers |
| Outbox.FreshBudget | order-service/internal/repository/outbox_repository.go:141-148 | n fresh rows have n times maxAttempts to spend |
| Outbox.BacklogRunsOut | order-service/internal/repository/outbox_repository.go:125-157 | a relay alone: after as many committed batches as attempts are left, no row is PENDING |
| RelayRuns.CommitSpends | order-service/internal/repository/outbox_repository.go:64-102 | beside any number of relays, every commit of a batch that claimed something strictly lowers the attempts left |
| RelayRuns.CommitsAreBounded | order-service/internal/repository/outbox_repository.go:125-157 | in every run of any number of relays without inserts and requeues, the commits that had claimed something are at most the attempts left at the start, and after that many no row is PENDING |
| RelayRuns.PendingCanBeDelivered | order-service/internal/repository/outbox_repository.go:55-123 | from any state a lone relay can put every PENDING row on the log, batch after batch of any fixed size |
| Outbox.InsertedSorted | order-service/internal/repository/order_repository.go:43-48 | an event row goes into the table at its id |
| OutboxRepository.Repository.HandOver | order-service/internal/repository/outbox_repository.go:80-102 | the batch loop computes the batch's progress, sends what it says, and keeps the bookkeeping of the refusals, up to a bookkeeping failure |
| OutboxRepository.Repository.PublishBatch | order-service/internal/repository/outbox_repository.go:55-123 | commits exactly when no database call fails; then the table is the settled one and the result counts it; otherwise the table is untouched while the log keeps what was sent |
| OutboxRepository.Repository.RequeueFailed | order-service/internal/repository/outbox_repository.go:174-184 | every retired row, and no other, is PENDING again with a fresh budget, and their number is returned |
| OutboxRepository.OneMoreRefusal | order-service/internal/repository/outbox_repository.go:134-157 | recording a failure by row id is the settlement with one more refusal: one attempt, and retirement when the budget is spent |
| OutboxRepository.MarkedIsSettled | order-service/internal/repository/outbox_repository.go:104-117 | the refusals' bookkeeping followed by the one mark gives the settled table |
| RelayRuns.BatchIsARun | order-service/internal/repository/outbox_repository.go:55-123 | a batch's effect on table and log is that of a run begin, turns, commit or abort of the relay system |
| Relays.StepKeeps | order-service/internal/repository/outbox_repository.go:55-184 | with any number of relays: live claims are disjoint sets of PENDING rows, PROCESSED rows are in the log, the log holds committed payloads only, retired rows have spent their attempts |
| Relays.NothingIsLost | order-service/internal/repository/outbox_repository.go:37-123 | over every run a committed row stays, with its payload, and if it is PROCESSED that payload is in the log, even after aborted transactions |
| Relays.NothingIsInvented | order-service/internal/messaging/kafka.go:131-173 | every logged message is the payload of a committed row under that row's id |
| Relays.BeginDisjoint | order-service/internal/repository/outbox_repository.go:64-69 | a claim that skips locked rows is disjoint from every live claim |
| Relays.SettledWell | order-service/internal/repository/outbox_repository.go:104-120 | a commit changes PENDING rows only, and what it calls PROCESSED was sent |
| DeliveryOrder.LoneRelayDeliversInOrder | order-service/internal/repository/outbox_repository.go:64-101 | with one relay and no requeue, over every run: first deliveries of an order come in outbox-id order, and a delivered row has every older row of its order delivered before it or retired |
| DeliveryOrder.StepInOrder | order-service/internal/repository/outbox_repository.go:64-101 | a step from an ordered state, beside any open batches, leaves an ordered one exactly when it is careful |
| DeliveryOrder.CareIsExact | order-service/internal/repository/outbox_repository.go:64-184 | no careful steps of any relays after it, nor those of a lone one of any batch size, deliver an order's events for the first time out of outbox-id order exactly when the step is careful: a claim leaves out no undelivered older PENDING row, a requeue revives no undelivered row behind a younger one delivered or about to be |
| DeliveryOrder.InOrderIff | order-service/internal/repository/outbox_repository.go:64-101 | the ordered states are exactly those from which a lone relay, of any one batch size, keeps delivering in order |
| DeliveryOrder.RunInOrder | order-service/internal/repository/outbox_repository.go:64-184 | every run of careful steps, with any number of relays and with requeues, stays in order |
| DeliveryOrder.LoneIsCareful | order-service/internal/repository/outbox_repository.go:64-69 | a claim made while no other transaction is open splits no backlog |
| DeliveryOrder.RequeueKeepsOrderIff | order-service/internal/repository/outbox_repository.go:172-184 | beside any open batches a requeue leaves the system in order exactly when no undelivered retired row is older than one that was delivered or that an open batch is still to deliver |
| DeliveryOrder.BeginKeepsOrderIff | order-service/internal/repository/outbox_repository.go:64-69 | a claim beside any locks leaves the system in order exactly when it leaves out no undelivered PENDING row older than one it takes |
| DeliveryOrder.RequeueCanBreakOrder | order-service/internal/repository/outbox_repository.go:174-184 | a run that delivers an order's second event and then, requeued, its first |
| DeliveryOrder.TwoRelaysOvertake | order-service/internal/repository/outbox_repository.go:64-69 | a run of two relays that skip each other's locks and deliver an order's second event before its first |
| Relay.Relay.Drain | order-service/internal/relay/relay.go:127-156 | terminates on the attempt budget, is a run of the relay system, keeps the delivery order, ends with an error only after a rollback or a batch with nothing published, and otherwise leaves PENDING only rows of aggregates the last batch blocked |
| Relay.LeftOverIsBlocked | order-service/internal/relay/relay.go:136-154 | after a committed batch below the batch size, every PENDING row belongs to a blocked aggregate |
| Relay.NothingPublishedIsAnError | order-service/internal/relay/relay.go:146-150 | a batch that claimed rows and published none carries a broker error |
| Relay.BatchKeepsOrder | order-service/internal/repository/outbox_repository.go:55-123 | a lone relay's batch, committed or rolled back, keeps the invariant and the delivery order |
| Ledger.HoldingsRepository.Apply | portfolio-service/internal/repository/holdings.go:162-188 | result and new state are those of the ledger's specification; set and list of applied ids stay in step, without repeats, within the bound |
| Ledger.HoldingsRepository.ApplyBuy | portfolio-service/internal/repository/holdings.go:192-210 | adds to the one holding of the fund or opens it |
| Ledger.HoldingsRepository.ApplySell | portfolio-service/internal/repository/holdings.go:214-245 | reduces, closes or refuses; an emptied user entry is removed; a refusal changes nothing |
| Ledger.HoldingsRepository.MarkApplied | portfolio-service/internal/repository/holdings.go:249-264 | evicts oldest ids first, from set and list alike |
| Ledger.HoldingsRepository.FindFund | portfolio-service/internal/repository/holdings.go:266-273 | finds the fund's index or reports -1 |
| Ledger.ApplyKeepsSound | portfolio-service/internal/repository/holdings.go:162-264 | keeps one holding per user and fund, no empty user entry, positive units, no negative cost, and a bounded list without repeats; whatever is not applied changes nothing; what is applied is remembered |
| Ledger.NewLedgerIsSound | portfolio-service/internal/repository/holdings.go:114-131 | a new ledger, seeded or not, has these properties and has applied nothing |
| Ledger.MoveIsLocal | portfolio-service/internal/repository/holdings.go:192-245 | a movement changes the one position it names, as the position arithmetic says, and no other of any user |
| Window.WindowRefinesSet | portfolio-service/internal/repository/holdings.go:249-264 | from any ledger, on every delivery sequence the bounded ledger returns what one with an unbounded dedup set returns exactly when each redelivery finds its id still in the window; then the positions are equal too |
| Window.WindowKeptIff | portfolio-service/internal/repository/holdings.go:249-264 | that is so exactly when fewer events than the bound took effect between an event's effect and each redelivery of it |
| Window.KnownIff | portfolio-service/internal/repository/holdings.go:249-264 | an applied id is in the window exactly while fewer than the bound have been applied after it |
| Window.SetAppliesOnce | portfolio-service/internal/repository/holdings.go:166-168 | an unbounded dedup set lets no event id take effect twice |
| Window.AtMostOnce | portfolio-service/internal/repository/holdings.go:166-187 | within the window neither does the bounded one |
| Window.ForgottenAppliesTwice | portfolio-service/internal/repository/holdings.go:249-264 | after as many further buys as the bound, a redelivery of the first takes effect again |
| Window.LedgerBalances | portfolio-service/internal/repository/holdings.go:162-245 | on every position, what stood there plus the effective buys is what is held plus what was released, after any deliveries |
| Position.Cell.ApplySell | portfolio-service/internal/domain/portfolio.go:158-182 | refuses, closes or reduces in place, returning the released cost; a refusal changes nothing |
| Position.InstalmentsRoundOnce | portfolio-service/internal/domain/portfolio.go:120-143 | however many buys built a position, its average cost is within half a paisa of all that was paid over all units: rounded once, not once per buy |
| Position.SaleReleasesPart | portfolio-service/internal/domain/portfolio.go:158-182 | a sale releases between nothing and the whole cost, and a close leaves exactly zero units and cost |
| Position.SaleDrift | portfolio-service/internal/domain/portfolio.go:173-181 | one proportional sale adds at most half a paisa to the distance between cost and any average price |
| Position.RemainingCostDrift | portfolio-service/internal/domain/portfolio.go:158-182 | after n non-closing sales the remaining cost is within n/2 paise of the original average times the remaining units |
| Position.AverageCostDrift | portfolio-service/internal/domain/portfolio.go:145-182 | so the average price is within n/2 paise spread over the remaining units |
| Position.ReportedAverageDrift | portfolio-service/internal/domain/portfolio.go:121-132 | and the reported, rounded average within half a paisa more |
| Position.BooksBalance | portfolio-service/internal/domain/portfolio.go:140-188 | over any sequence of movements, refused ones included: paid equals held plus released exactly, cost is never negative, units balance to one epsilon a close |
| Position.BuysAreWorthWhatWasPaid | portfolio-service/internal/domain/portfolio.go:79-85 | any list of buys at one positive NAV, valued at that NAV, is worth exactly what was paid |
| Position.UnitsAddUp | portfolio-service/internal/domain/portfolio.go:203-208 | the units bought at one NAV are together worth the sum paid |
| Projection.OnlyFillsChangeTheLedger | portfolio-service/internal/service/portfolio_service.go:115-141 | the ledger changes exactly when the projection reports it, and then only for a valid executed event of a known type at a positive price with a new id |
| Projection.PriceIsPositive | portfolio-service/internal/service/portfolio_service.go:189-197 | units come out positive exactly for a positive NAV and a positive amount |
| Projection.CacheHoldsFeedAnswers | portfolio-service/internal/service/portfolio_service.go:81-101 | over any series of lookups, nothing gets into the cache but what the feed answered for that very fund |
| Projection.CachedPriceStands | portfolio-service/internal/service/portfolio_service.go:81-101 | while its entry can be read, a fund keeps its price through any lookups, whatever the feed answers |
| Projection.PortfolioService.Valuate | portfolio-service/internal/service/portfolio_service.go:50-76 | one row per holding at its fund's price, as many lookups as there are funds held and one for each, totals that are the sums of the rows, and total gain equal to total value less total cost |
| Projection.PortfolioService.ApplyOrderEvent | portfolio-service/internal/service/portfolio_service.go:115-167 | ledger and verdict are those of the projection at the price resolved during the call |
| Projection.PortfolioValuation.Add | portfolio-service/internal/domain/portfolio.go:65-75 | appends a row and keeps the totals equal to the sums |
| Projection.GainIsValueLessCost | portfolio-service/internal/domain/portfolio.go:55-75 | gains taken row by row sum to total value less total cost |
| Consumer.OrderEventConsumer.ApplyWithRetries | portfolio-service/internal/consumer/kafka.go:228-288 | ends at the first try that does not lack a price, or whose wait is cancelled, or that is the last; that try alone decides ledger and error; the waits are at most those of all attempts |
| Consumer.WaitedInAll | portfolio-service/internal/consumer/kafka.go:229-278 | doubling from the base, the first n waits add up to base times (2^n - 1) |
| Consumer.ExhaustedIff | portfolio-service/internal/consumer/kafka.go:258-287 | giving up for want of a price takes fewer than all attempts exactly when a wait before the last was cancelled |
| Consumer.GivenUpAfterOne | portfolio-service/internal/consumer/kafka.go:271-276 | a valid fill that finds no price and whose first wait is cancelled is given up after one of any number of attempts |
| Consumer.CancelledWaitIsParked | portfolio-service/internal/consumer/kafka.go:207-306 | such a message never takes effect, and it is parked and acknowledged instead of being left for redelivery exactly when park and commit go through |
| Consumer.OrderEventConsumer.DeadLetter | portfolio-service/internal/consumer/kafka.go:296-306 | parks and then commits; a failed park moves nothing |
| Consumer.OrderEventConsumer.Process | portfolio-service/internal/consumer/kafka.go:163-217 | one message is one step of the delivery system, held only if its park failed, parked under the reason the last verdict gives; exhausted before all attempts exactly when a wait was cancelled |
| Consumer.ParkedLeavesLedger | portfolio-service/internal/consumer/kafka.go:163-217 | the ledger changes exactly for a message settled as applied, by one event, and not at all for a parked or held one |
| Consumer.OrderEventConsumer.Run | portfolio-service/internal/consumer/kafka.go:142-161 | the fetch loop is a run of the delivery system, whatever it meets |
| Delivery.CommittedIsAccountedFor | portfolio-service/internal/consumer/kafka.go:163-217 | in every run in which a held message is rewound to before anything after it is committed, with commit failures and rebalances, each offset below the committed one was applied, was a no-op, or is on the dead-letter log |
| Delivery.CommittedWhenParksSucceed | portfolio-service/internal/consumer/kafka.go:296-306 | so it is in every run where parks succeed |
| Delivery.HoldsRewoundIff | portfolio-service/internal/consumer/kafka.go:292-306 | rewinding, followed step by step, means that a rebalance lies between each held message and every later commit |
| Delivery.StepAccounts | portfolio-service/internal/consumer/kafka.go:163-217 | what is accounted for stays so over every step, a failed park included, and a settled or parked offset becomes so |
| Delivery.CommitIsSafeIff | portfolio-service/internal/consumer/kafka.go:308-315 | seen before it is made, a commit keeps the committed prefix accounted for exactly when each offset it would skip is accounted for already or holds a copy of the event just being applied |
| Delivery.HeldOffsetIsPassed | portfolio-service/internal/consumer/kafka.go:296-302 | a failed park followed by a committed message acknowledges an event that is nowhere |
| Money.Format | order-service/internal/domain/money.go:81-99 | prints sign, symbol, grouped rupees and two paise digits, MinInt64 included |
| Money.GroupIndian | order-service/internal/domain/money.go:156-175 | the separator loop writes the grouping that cuts three digits and then pairs from the right |
| Money.GroupingShape | order-service/internal/domain/money.go:153-175 | above three digits: a final group of three, pairs before it, one or two digits first, and no digit lost or moved |
| Money.GroupedStripped | order-service/internal/domain/money.go:156-175 | deleting the separators undoes the grouping |
| Money.HalvesMoveThePoint | order-service/internal/domain/money.go:125-135 | refuses exactly a third decimal; otherwise the two halves, read as paise, are the digits with the point moved two places to the right |
| Money.ParseRupees | order-service/internal/domain/money.go:109-151 | the parser's result, refusals and wrap-around included |
| Money.ParseUndoesFormat | order-service/internal/domain/money.go:81-151 | the parser reads back every int64 amount from its own rendering, with and without the rupee sign, MinInt64 through two's-complement wrap-around |
| RupeeTwins.TwinsAgree | frontend/src/lib/format.ts:60-72 | on a text rupeesToPaise accepts with less than 2^53 paise, ParseRupees returns the same paise exactly when only blanks stand inside, and refuses it otherwise |
| RupeeTwins.TwinsAgreeOnAccepted | order-service/internal/domain/money.go:109-151 | where ParseRupees returns less than 2^53 paise, rupeesToPaise returns the same exactly when the text holds no NEL, has plain digits on both sides of its point and not the point alone, and does stand for less than 2^53 paise |
| RupeeTwins.PrintedReads | frontend/src/lib/format.ts:60-72 | rupeesToPaise reads a printed int64 amount as the double sum of its rupees times a hundred and its paise, each operation rounded to the nearest double |
| RupeeTwins.PrintedReadsBack | frontend/src/lib/format.ts:60-72 | below 2^53 paise it undoes Go's printer |
| RupeeTwins.OddAmountsAreRounded | frontend/src/lib/format.ts:70 | from 2^53 on it returns something else for every odd amount, while ParseRupees reads it back |
| RupeeTwins.JsSumIsExact | frontend/src/lib/format.ts:70 | the sum in doubles is below 2^53 exactly when the exact one is, and then equals it |
| RupeeTwins.ReadAlike | frontend/src/lib/format.ts:64-71 | on one cleaned text the two readings give the same paise |
| RupeeTwins.ForeignSpaceRefused | order-service/internal/domain/money.go:110-113 | white space other than a blank inside a text makes ParseRupees refuse it |
| RupeeTwins.AcceptedChars | order-service/internal/domain/money.go:115-144 | whatever ParseRupees accepts is digits, signs and points once cleaned |
| RupeeTwins.LonePoint | order-service/internal/domain/money.go:125-131 | a lone point is zero to ParseRupees and no amount to rupeesToPaise |
| RupeeTwins.SecondSign | order-service/internal/domain/money.go:115-137 | ParseRupees takes a second sign after the first, rupeesToPaise does not |
| RupeeTwins.TabInside | frontend/src/lib/format.ts:61 | rupeesToPaise drops a tab between digits, ParseRupees refuses the text |

## Left out

- IEEE-754 in the portfolio service: units and NAVs are reals; representation error, NaN and infinities are idealised away, and `RoundNAV` is not modelled. In format.ts whole numbers are rounded to doubles as the language does, up to where a double overflows (2^1024).
- RupeeTwins.TwinsAgreeOnAccepted: says nothing of texts that Go reads as 2^53 paise or more, where JavaScript arithmetic rounds; `RupeeTwins.PrintedReads` and `RupeeTwins.OddAmountsAreRounded` say what happens to printed amounts there.
- Integer width of the ledger and of batch counters: int64 wrap-around is modelled in the money printer and parser only; cost and totals are unbounded integers.
- Outbox ids are the table's own sequence; a row may commit behind a larger id, but not behind one of its own order, whose row lock is held from before the id is drawn.
- Kafka's log is one append-only sequence, which one consumer reads in `EndToEnd`; per-order statements concern one key, hence one partition, and `Pipeline` allows for deliveries in any order. A publisher that is not configured, whose publish returns nil without writing (messaging/kafka.go:142-144), is not part of this model.
- Postgres transactions are atomic with known outcome; a commit that succeeds but reports an error is modelled for orders only as an actor that stops after its write.
- Event ids and order ids are fresh by assumption; JSON encoding is the identity on the envelope's fields; request ids, timestamps, last_error, contact details and error texts (one error kind each, no length limits on bytes) are dropped.
- Redis expiry is a step that may happen at any time; the lifetime itself is not modelled. A claim that errors is taken not to have stored the key; a key stored by such a claim is covered by an actor that stops.
- The relay's timer, backoff and shutdown flush (relay.go:85-121 and 161-181): `Drain` is the unit they call.
- OrderService.OrderService.Place: what others do between the last write of a call and the release or confirmation of its reservation is left to the steps of `OrderSystem`.
- OutboxRepository.Repository.PublishBatch: asks for a positive limit, which relay.go:44-60 supplies.
- Consumer.OrderEventConsumer.Run: takes the number of turns and what each fetch meets as parameters, since the loop ends only when it is stopped; group offsets at start-up, metrics and lag are dropped.
- Consumer.OrderEventConsumer.ApplyWithRetries: needs at least one attempt, which portfolio-service/internal/config/config.go supplies; time is counted in waits begun, not measured.
- The ledger does not survive a restart, and the model has rebalances but no restarts.
- `Pipeline` and `EndToEnd`: deliveries carry any positive or non-positive NAV; that the price found is the one the order filled at is not claimed, as the code says it is not.
- The notification service, the gateway, HTTP and gRPC layers, rate limiting, tracing and metrics.
