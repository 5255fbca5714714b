# Tickwright: the crash-safe ledger and the protocols that feed it

A Dafny model of the trading engine's accounting core, with proofs over every input, every run or
every reachable state. `dafny verify dfyconfig.toml` checks the whole project.

The engine keeps one account ledger: a cash line, and one partition per owner and symbol holding a
signed size at an average entry price. Fills, split pieces of an operator's flatten order, reconcile
heals, leftover moves and funding all move it. One quantity ties them together, the **net cash**: cash
less the cost basis of every partition. Money and prices are `real`. Order, split and book sizes are
whole lots, because the venue fills on its lot grid and the split truncates to it.

| file | what it models |
|---|---|
| `FlattenSplit.dfy` | a flatten order's fills split over every partition: apportionment, cumulative moves, fee shares |
| `Positions.dfy`, `Ledger.dfy` | the average-cost reducer, the account ledger, net-cash conservation, equity |
| `FlattenBooking.dfy` | a flatten order booked through its split |
| `Leftover.dfy` | moving strategy sizes into the unattributed partition |
| `Sagas.dfy`, `Adoption.dfy` | the nine-state order saga under duplicate delivery; adopting a venue view |
| `Recovery.dfy` | place, deliver, redeliver, fold, write, crash and recover as one state machine |
| `Partitions.dfy` | the ledger of any run, partition by partition: whose a booking is |
| `Projection.dfy`, `Execution.dfy` | the in-memory projection, the store and the execution manager as classes, proved to take the machine's steps, restarts included |
| `Heal.dfy`, `HealCycle.dfy` | the Tier-1 reconcile cycle and its convergence on the venue |
| `Bus.dfy` | the in-memory and the log event bus, and the refinement between them |
| `Funding.dfy`, `FundingRuns.dfy` | funding boundaries, each applied once, at the gate and in every run of the machine |
| `Guard.dfy` | the position cap over whole runs and the sliding-window rate cap |
| `Identity.dfy` | signal ids and seq records across crashes |
| `Liquidation.dfy` | the computed liquidation price |
| `Quantizer.dfy` | venue-valid prices and sizes |
| `PaperBook.dfy` | the paper venue's resting book and its fills not in the store yet |

`Domain.dfy`, `Sums.dfy` and `Arith.dfy` hold shared vocabulary, finite sums and integer arithmetic.

Code between two `await`s is one step. A crash may fall between any two steps and discards everything
that is not in the store. Event ids are injective in their parts.

Where the code and its own comments disagree, or a property holds only under a condition, the model
follows the code and the condition is proved exact:

- `checkpoint_leftover` says no cash moves. It does when the unattributed side is opposite.
  `LeftoverMovesCash` shows it and `LeftoverCash` says exactly when cash stays.
- `_liquidation_price` says a short always has a price. A cross short far enough under has none
  (`CrossShortCanHaveNone`): on an account that holds its symbol alone it has one if and only if net
  cash is positive (`CrossShortPricedIff`), and `ReportedIff` says when any position has one.
- The reduce-only pass in `RealGuard.check` keeps the position cap exactly when the unattributed
  partition is inside the cap (`ReduceOnlyKeepsCapIff`). A flatten order keeps it exactly when what is
  open on its own side is inside the cap (`FlattenKeepsCapIff`; `FlattenBreaksCap` is one that is not).
- A funding boundary delivered behind a later one is dropped for good (`LateBoundaryIsLost`). A
  boundary is booked exactly where its first delivery was in time (`BookedIffInTime`), and nothing is
  lost if and only if first deliveries ascend (`NothingLostIff`).
- A second adoption of one venue view is not always a no-op: the ghost gate may have ruled the order
  gone in between. `AdoptionSettles` gives the exact condition.

## Model

| member | source | states |
|---|---|---|
| FlattenSplit.HandOutLots | src/tickwright/engine/flatten_split.py:107-117 | the one-lot-at-a-time loop computes the hand-out the next laws are about |
| FlattenSplit.HandOutIsGreedy | src/tickwright/engine/flatten_split.py:110-116 | each lot goes to the partition with the largest lots times total less its share times the side's lots, the first such in order: with an empty start this fixes every share |
| FlattenSplit.HandOutApportions | src/tickwright/engine/flatten_split.py:107-117 | for every total up to the side's lots: shares sum to it, stay within each partition's lots, under one lot above and under n-1 lots below the exact share, and equal the lots at the full total |
| FlattenSplit.HandOutGrows | src/tickwright/engine/flatten_split.py:107-117 | a larger total never takes a lot back from anyone |
| FlattenSplit.TotalMovesLaw | src/tickwright/engine/flatten_split.py:75-88 | after any cumulative fill the moves net to the fill, none passes zero, and a full fill flattens every partition, with or against the net |
| FlattenSplit.TotalMovesPace | src/tickwright/engine/flatten_split.py:75-88 | the side with the net has handed out its lots times the fill over the net, rounded down, the other side the difference, each among its own partitions |
| FlattenSplit.TotalMovesGrow | src/tickwright/engine/flatten_split.py:62-67 | later fills only take a partition further toward zero, never past it |
| FlattenSplit.PiecesLaw | src/tickwright/engine/flatten_split.py:62-68 | one fill's pieces sum to the signed fill, each toward zero from where the earlier fills left it |
| FlattenSplit.SplitLaw | src/tickwright/engine/flatten_split.py:41-72 | the split answers exactly when there is a net and the fill stays inside it; its sizes sum to the fill and its fees to the fee |
| FlattenSplit.SplitMoves | src/tickwright/engine/flatten_split.py:59-72 | the moves are exactly the partitions whose total move the fill changes, each by that change, with the fee shared on those sizes in that order |
| FlattenSplit.ChoppingLaw | src/tickwright/engine/flatten_split.py:49-67 | however an order is cut into fills the partitions end where the cumulative fill says, and flat at a full fill |
| FlattenSplit.AcceptedOrderSplits | src/tickwright/engine/flatten_split.py:23-38 | an order the refusal rule accepts never meets a split error, whatever its fills |
| FlattenSplit.RefusalLaw | src/tickwright/engine/flatten_split.py:23-38 | accepted if and only if the order takes the net toward zero and no further; which refusal says which |
| FlattenSplit.SplitFeeShares | src/tickwright/engine/flatten_split.py:91-104 | the in-place fee split: the shares sum to the fee exactly, each but the largest mover's is within half a step of its proportion, and the largest mover's is off by no more than half a step for each of the others |
| FlattenSplit.SplitFeeSums | src/tickwright/engine/flatten_split.py:101-104 | the shares sum to the fee exactly |
| FlattenSplit.SplitFeeProportion | src/tickwright/engine/flatten_split.py:97-103 | every share but the largest mover's is within half a step of its exact proportion |
| FlattenSplit.QuantizeLaw | src/tickwright/engine/flatten_split.py:101-103 | rounding lands on the nearest multiple of the step, on the even one of two |
| FlattenBooking.SplitWorth | src/tickwright/engine/checkpoint.py:285-325 | one fill's pieces move net cash by its notional and fee and the account net by its signed size |
| FlattenBooking.FlattenPreserves | src/tickwright/engine/checkpoint.py:242-249 | a whole order booked in pieces leaves every account net, the net cash and the equity at any marks as booking each fill whole into one partition |
| FlattenBooking.FlattenSizes | src/tickwright/engine/checkpoint.py:285-325 | in the ledger each partition of the basis ends at its start plus its share of the cumulative fill |
| FlattenBooking.FlattenClosesEveryPartition | src/tickwright/engine/checkpoint.py:285-325 | a fully filled flatten order leaves every partition of its basis flat in the ledger |
| Positions.BookLaw | src/tickwright/domain/position.py:397-433 | size adds; realized less cost basis moves by the notional; only a reduction realizes; a reduction keeps the entry, a close clears it, a flip restarts it |
| Positions.Position.Book | src/tickwright/domain/position.py:397-433 | the four regimes in place, and which changes they announce |
| Positions.ChangesLaw | src/tickwright/domain/position.py:397-433 | closed where the old exposure is gone, opened where there is a new one, in that order, changed where it goes on |
| Positions.Position.Apply | src/tickwright/domain/position.py:315-374 | refusal ahead of the dedup, dedup, fee, then the reducer |
| Positions.Position.AccrueFunding | src/tickwright/domain/position.py:376-395 | funding moves its own line only |
| Ledger.BookFillLaw | src/tickwright/engine/portfolio.py:713-752 | a fill moves net cash by minus its notional and fee and only its symbol's account net, by its size |
| Ledger.FundingLaw | src/tickwright/engine/portfolio.py:868-952 | funding moves net cash by the amount and no net; the lines sum to it whenever the symbol holds a net |
| Ledger.FundingEach | src/tickwright/engine/portfolio.py:917-952 | each exposed partition's line takes its size over the account net of the amount, and nothing else of any partition moves |
| Ledger.Conservation | src/tickwright/engine/portfolio.py:698-752 | over any run net cash is genesis less notional less fees plus funding, and each account net is the net traded |
| Ledger.EquityLaw | src/tickwright/domain/valuation.py:497-532 | equity at any marks is net cash plus each account net at its mark: partitions and entries cancel out |
| Ledger.SameWorth | src/tickwright/domain/valuation.py:594-631 | net cash and account nets decide what a ledger is worth at any marks |
| Leftover.LeftoverPieces | src/tickwright/engine/checkpoint.py:338-351 | the accumulating loop builds the closings and the one unattributed piece |
| Leftover.LeftoverLaw | src/tickwright/engine/checkpoint.py:327-365 | no account net moves, no strategy realizes, every strategy ends flat; net cash is kept unless the moved sizes cancel, and then shifts by the dropped cost |
| Leftover.LeftoverCash | src/tickwright/engine/checkpoint.py:327-365 | cash itself stays if and only if the sizes cancel or the unattributed side is flat, on the same side, or entered at the joint price |
| Leftover.LeftoverMovesCash | src/tickwright/engine/checkpoint.py:332-334 | a concrete book where the move does book cash |
| Sagas.Order.Apply | src/tickwright/domain/order.py:282-310 | dedup first, then legality, then the advance with its venue id, ack stamp and reason |
| Sagas.Order.RecordFill | src/tickwright/domain/order.py:312-371 | a non-positive fill is refused before its id is spent; otherwise the accumulated quantity picks the target; no venue term or cancel marker moves |
| Sagas.RunKeepsSound | src/tickwright/domain/order.py:33-66 | what every run of facts keeps, from a placed or a denied order: filled exactly at the quantity, no fills before the first or behind a rejection, and a denial moved by nothing |
| Sagas.Converges | src/tickwright/engine/execution.py:410-460 | arbitrary duplicates leave exactly the saga the first deliveries leave, `cum` is the sum of distinct fills, and a run faults exactly when its first deliveries do or a fill is not positive |
| Sagas.Outcomes | src/tickwright/domain/order.py:33-66 | denied if and only if denied at place; filled if and only if the distinct fills reach the quantity; denied, rejected and failed mean no fills |
| Sagas.TerminalAbsorbs | src/tickwright/engine/execution.py:414-420 | a terminal saga never moves; only a fill never booked faults |
| Sagas.AcceptedAdvances | src/tickwright/domain/order.py:33-54 | every accepted event strictly advances a well-founded measure |
| Sagas.RunAcceptsFew | src/tickwright/domain/order.py:33-66 | however many facts arrive, an order of q lots accepts at most q + 2 events |
| Sagas.Order.RequestCancel | src/tickwright/domain/order.py:159-178 | the first request keeps the marker; a terminal order takes none |
| Sagas.TerminalIsFinal | src/tickwright/domain/order.py:33-66 | a state is terminal if and only if no transition leaves it |
| Sagas.Order.RequestCancelAll | src/tickwright/domain/order.py:180-205 | a cancel all reaches only an open order sent before it and not marked as late, and moves the marker only forward |
| Sagas.Order.MarkOperatorCancel | src/tickwright/domain/order.py:207-219 | the operator's cancel marks an open order again, keeps the first stamp, and consumes no seq |
| Sagas.CancelAllSettles | src/tickwright/domain/order.py:180-205 | the marker ends at the latest cancel all that reaches the order |
| Sagas.CancelAllOrderless | src/tickwright/domain/order.py:183-186 | the same cancel alls in any order and multiplicity settle the same |
| Adoption.Deliver | src/tickwright/engine/execution.py:410-460 | one published fact on the order object is one step of the saga, with the venue id, ack stamp and reason it leaves |
| Adoption.HealFills | src/tickwright/engine/reconcile.py:491-496 | the replay loop is the run of the fills |
| Adoption.AdoptOrder | src/tickwright/engine/reconcile.py:417-489 | the resolver's branches, in order, on the order object |
| Adoption.HealLaw | src/tickwright/engine/reconcile.py:491-496 | healing books exactly the missing fills |
| Adoption.AdoptionAligns | src/tickwright/engine/reconcile.py:417-489 | for every reachable open saga and coherent view nothing replayed is illegal, the saga ends with the view's fills booked, in the state the view and the gate call for: a vanished order is cancelled where a cancel was asked for or a fill is booked, and rejected where neither |
| Adoption.AdoptionSettles | src/tickwright/engine/reconcile.py:470-489 | a second adoption is a no-op if and only if the gate has not ruled an absent working order gone |
| Adoption.AdoptionResumes | src/tickwright/engine/reconcile.py:458-469 | a crash after the bridge or any prefix of the replay costs nothing |
| Recovery.TakeAllBooks | src/tickwright/domain/position.py:363-364 | fills whose ids are new book in full and leave only those ids behind |
| Recovery.FillsTrade | src/tickwright/engine/checkpoint.py:242-249 | a trade's ledger fills, split or not, are one trade: one symbol, one price, one partition each, and a plain order's its own owner's |
| Recovery.TradeIds | src/tickwright/engine/checkpoint.py:285-325 | a partition dedups a whole fill on the trade's id and a piece on one that names the owner |
| Recovery.EveryRunSound | src/tickwright/engine/checkpoint.py:219-271 | the inductive invariant over store, memory and history holds in every reachable state |
| Recovery.ExactlyOnce | src/tickwright/engine/execution.py:429-471 | after any run the durable ledger is the fold from genesis of a log that holds each fill once, exactly the fills the durable orders reflect |
| Recovery.FillLands | src/tickwright/engine/execution.py:429-471 | and none is lost: in any state a run reaches a new fill of a working order books once its write lands, durably, and a redelivery changes nothing |
| Recovery.CheckpointLasts | src/tickwright/engine/execution.py:475-490 | a status moves the saga in memory, a checkpoint stores it, and it is what a restart reads back |
| Recovery.LeftoverLands | src/tickwright/engine/checkpoint.py:327-365 | a leftover move books once its write lands, under its stamp, once |
| Partitions.PartitionSizes | src/tickwright/engine/portfolio.py:713-752 | in every reachable state each partition's durable size is genesis plus what each booking traded on it: a plain fill its whole size on its own owner's, a split one each owner's share, a leftover move and a heal what they move |
| Partitions.FillTrades | src/tickwright/engine/checkpoint.py:242-249 | what one trade puts on any partition |
| Recovery.TurnsIff | src/tickwright/engine/execution.py:303-315 | a flatten order is turned away at place if and only if it would not take its basis's net toward zero, or past it |
| Recovery.NoSplitFault | src/tickwright/engine/execution.py:305-315 | because a flatten order the split refuses is denied at place, no fill within an order's quantity ever faults on its split, in any state any run reaches |
| Recovery.ReplayWorth | src/tickwright/engine/checkpoint.py:219-464 | what survives any crashes is worth its fills, payments, leftover moves, heals and corrections |
| Projection.PortfolioProjection.ApplyFill | src/tickwright/engine/portfolio.py:698-752 | a fill moves one position, the cash line and its stamp; a redelivery moves nothing; a first fill is not filed |
| Projection.PortfolioProjection.Split | src/tickwright/engine/portfolio.py:917-952 | each partition gets its exact share, the residue included |
| Projection.PortfolioProjection.ApplyFunding | src/tickwright/engine/portfolio.py:838-915 | both gates, then the whole ledger is the funded ledger |
| Projection.Store.CheckpointLedger | src/tickwright/adapters/store/_sql.py:263-296 | one transaction moves every row it names, or none |
| Projection.Checkpointer.FoldAll | src/tickwright/engine/checkpoint.py:243-249 | the pieces folded one by one leave the book of all of them, filed or not |
| Projection.Checkpointer.CheckpointFill | src/tickwright/engine/checkpoint.py:219-271 | fold, write, project: memory and store both hold the booked fill beside the whole order row, or the store is as it was |
| Projection.Checkpointer.CheckpointFunding | src/tickwright/engine/checkpoint.py:466-516 | the accrual and its watermark land together; a gated boundary writes nothing |
| Projection.Checkpointer.CheckpointHeal | src/tickwright/engine/checkpoint.py:367-464 | the size fills and the cash correction land together, cash at the venue's net cash plus the cost basis after the fills |
| Projection.Checkpointer.CostBasis | src/tickwright/engine/portfolio.py:570-579 | the cost basis counts folded positions that are not filed yet |
| Projection.Checkpointer.Recover | src/tickwright/engine/portfolio.py:1060-1068 | the ledger comes back whole and every dedup set empty |
| Execution.FateIsTheMachines | src/tickwright/engine/checkpoint.py:242-271 | what a report comes to is the recovery machine's fold followed by its write |
| Execution.FundingFateIsTheMachines | src/tickwright/engine/checkpoint.py:466-516 | what a boundary comes to is the machine's fold followed by its write with the watermark |
| Execution.ExecutionManager.Restart | src/tickwright/engine/checkpoint.py:182-183 | a restart on the objects is the machine's recovery: the ledger and every order row, venue terms and cancel marker included, come back as the store holds them |
| Execution.ExecutionManager.Place | src/tickwright/engine/execution.py:271-340 | a placement is the machine's: one durable row, pending or denied, written once |
| Execution.ExecutionManager.ApplyFill | src/tickwright/engine/execution.py:429-471 | in any state a run reaches, one report on the objects is that step: absorbed, faulted with the store untouched, or booked |
| Execution.ExecutionManager.AccrueFunding | src/tickwright/engine/checkpoint.py:466-516 | and so is one boundary: gated, refused with the store untouched, or booked |
| Heal.VenueNetCashIsEquity | src/tickwright/domain/account.py:51-59 | the venue's net cash is its equity less the signed notionals |
| Heal.FindingsRead | src/tickwright/engine/ledger_reconcile.py:604-627 | exactly the symbols whose account net differs from the venue's, over the union of both sides, each once |
| Heal.Classify | src/tickwright/engine/ledger_reconcile.py:1023-1139 | the planning loop computes the plan the next four rows are about |
| Heal.HealsIff | src/tickwright/engine/ledger_reconcile.py:1049-1126 | fills in flight or none, exactly which sizes heal, and when the cash line is corrected |
| Heal.RemembersIff | src/tickwright/engine/ledger_reconcile.py:1049-1139 | exactly which findings the next pass remembers |
| Heal.PlanCounts | src/tickwright/engine/ledger_reconcile.py:1049-1139 | every finding is healed or counted under the one reason that held it back |
| Heal.TwoSightings | src/tickwright/engine/ledger_reconcile.py:982-988 | whatever happens between two passes, nothing heals that the pass before did not find at the same gap with no fill in flight |
| Heal.PassLaw | src/tickwright/engine/ledger_reconcile.py:1049-1126 | one pass takes exactly the remembered, priced sizes to the venue's, remembers the rest, and corrects cash exactly when no size is left |
| Heal.PassBooks | src/tickwright/engine/ledger_reconcile.py:1056-1088 | fills in flight or none, verified or not: each gap goes into its unattributed partition at the venue's entry price, a flat one ends at that entry, nothing else moves, and net cash moves by minus the gap at that price unless corrected |
| Heal.ComparedLaw | src/tickwright/engine/ledger_reconcile.py:537-563 | the figure compared is net cash with each diverged symbol's cost basis given up for the venue's |
| Heal.HealsConverge | src/tickwright/engine/ledger_reconcile.py:1231-1331 | from any ledger and memory, two passes settle the sizes, four the net cash, and no later pass heals anything |
| Heal.SizesConvergeIffPriced | src/tickwright/engine/ledger_reconcile.py:1056-1070 | the sizes converge if and only if the venue prices every diverged symbol |
| Heal.SettledEquity | src/tickwright/engine/ledger_reconcile.py:537-563 | a settled ledger reports the venue's equity at the venue's marks, within the venue's unit |
| HealCycle.PlanFits | src/tickwright/engine/ledger_reconcile.py:1071-1088 | a plan's fills are steps the machine takes: distinct unattributed partitions, real gaps |
| HealCycle.PassIsAStep | src/tickwright/engine/checkpoint.py:367-464 | a cycle's heals are the machine's fold followed by its write |
| HealCycle.LedgerReconciliation.ReconcileAccount | src/tickwright/engine/ledger_reconcile.py:1298-1331 | the cycle on the objects is the pass the convergence is about, and a store that held the ledger holds the healed one |
| Bus.DispatchAll | src/tickwright/adapters/bus/subscriptions.py:28-36 | the loop over the subscribers computes the reply the next two rows fix |
| Bus.DispatchOne | src/tickwright/adapters/bus/subscriptions.py:28-36 | one subscriber answers with its handler's reply where it accepts the event, and with nothing where it does not |
| Bus.DispatchAppend | src/tickwright/adapters/bus/subscriptions.py:28-36 | later subscribers hear the event behind the earlier ones, in the world those left, everything published in order; behind a failure nobody does |
| Bus.CascadeStep | src/tickwright/adapters/bus/inmemory.py:43-61 | what handlers publish queues behind what was there; a failure drops the queue and is raised at the end, and without one the cascade returns |
| Bus.InMemoryBus.Publish | src/tickwright/adapters/bus/inmemory.py:43-61 | the trampoline is a run of the queue machine: drained and returned, or cleared and raised |
| Bus.DrainLedger.RecordProduced | src/tickwright/adapters/bus/drain_ledger.py:28-31 | the high-water mark covers the offset, never goes down, and no other partition's moves |
| Bus.DrainLedger.RecordCommitted | src/tickwright/adapters/bus/drain_ledger.py:33-36 | exactly the partition's records up to the offset are passed, and no other partition's |
| Bus.DrainLedger.InFlight | src/tickwright/adapters/bus/drain_ledger.py:38-43 | in flight if and only if some partition's mark is not passed |
| Bus.LedgerFollows | src/tickwright/adapters/bus/kafka.py:124-248 | over every interleaving the drain ledger's maps, fed each step's calls, read the bus's mark and position, and its answer is the one the drain waits on |
| Bus.IdleMeansQuiet | src/tickwright/adapters/bus/kafka.py:152-166 | with nothing in flight every record is consumed and nothing is held |
| Bus.LogBusRefines | src/tickwright/adapters/bus/kafka.py:124-248 | every interleaving of publisher and poll loop dispatches what the in-memory bus dispatches for the same publishes, in order, with the same outcomes |
| Bus.OneTrace | src/tickwright/adapters/bus/kafka.py:124-248 | two runs that published the same and have ended dispatched the same trace and left the same world |
| Bus.PublishFences | src/tickwright/adapters/bus/kafka.py:138-166 | a publish ends only with the whole cascade accounted for and the fault handed on |
| Bus.NoDeadlock | src/tickwright/adapters/bus/kafka.py:152-166 | while a publish is open some step is enabled |
| Funding.BoundariesExact | src/tickwright/domain/economics.py:68-91 | ascending, and exactly the multiples in the half-open span |
| Funding.BoundariesTile | src/tickwright/domain/economics.py:84-87 | consecutive spans tile |
| Funding.FundingOnce | src/tickwright/engine/portfolio.py:838-901 | the gate, fed ascending deliveries cut by crashes and replayed, passes each boundary after genesis once, in order |
| Funding.BookedIffInTime | src/tickwright/engine/portfolio.py:899-901 | in any order and multiplicity a boundary passes if and only if its first delivery came ahead of every later boundary, and never twice |
| Funding.NothingLostIff | src/tickwright/engine/portfolio.py:899-901 | nothing is lost if and only if first deliveries ascend |
| Funding.LateBoundaryIsLost | src/tickwright/engine/portfolio.py:899-901 | one order of deliveries that loses a boundary |
| FundingRuns.RunDelivers | src/tickwright/engine/checkpoint.py:466-516 | any run of the machine books exactly what the gate passes of the deliveries the run settled, behind the same watermark |
| FundingRuns.FundingOnceInRuns | src/tickwright/engine/portfolio.py:838-901 | on any run whose deliveries resume an ascending schedule the log's boundaries are the schedule's after genesis, each once, in order |
| FundingRuns.FundingAcrossLives | src/tickwright/engine/portfolio.py:838-901 | across process lives the log ends where the furthest life did |
| FundingRuns.FundingInAnyOrder | src/tickwright/engine/portfolio.py:899-901 | on any run at all no boundary is booked twice, and one is booked exactly where it was delivered in time |
| FundingRuns.FundingLands | src/tickwright/engine/portfolio.py:838-915 | and none is lost: in any state a run reaches a boundary past genesis and all booked ones books once its write lands |
| FundingRuns.FundingWorth | src/tickwright/engine/portfolio.py:868-915 | in every reachable state durable net cash is what everything else moved plus one amount for each boundary booked |
| Guard.RealGuard.Check | src/tickwright/engine/guard.py:199-310 | the first refusal in the order of the checks, and the rate cap behind them |
| Guard.RealGuard.Admit | src/tickwright/engine/guard.py:294-309 | no window ever holds more than the cap, and a denial means the trailing window is full |
| Guard.ApprovedIff | src/tickwright/engine/guard.py:199-293 | exactly which orders of any kind pass every check ahead of the rate cap |
| Guard.RefusalTells | src/tickwright/engine/guard.py:199-293 | what each refusal says is so, and the checks ahead of it passed |
| Guard.ApprovedFitsCaps | src/tickwright/engine/guard.py:239-293 | an approved plain order that grows the worst case fits the size, value and position caps that are set |
| Guard.CapsSpareReductions | src/tickwright/engine/guard.py:240-263 | no cap on size, value or position stops an order that shrinks the worst case, or a reduce-only or flatten one |
| Guard.HaltSparesFlatten | src/tickwright/engine/guard.py:200-205 | a tripped kill switch stops everything but flatten orders |
| Guard.NetStaysInside | src/tickwright/engine/guard.py:239-293 | through any run of approved strategy orders, partial fills and ends the net stays inside the cap; a run with a reduce-only order needs the unattributed partition inside it |
| Guard.ApprovedTrades | src/tickwright/engine/guard.py:239-293 | an approved order is open at its size, its fills move the net, its end frees the rest |
| Guard.ReduceOnlyKeepsCapIff | src/tickwright/engine/guard.py:248-261 | reduce-only orders keep the cap from every state inside it if and only if the unattributed partition is inside it |
| Guard.FlattenKeepsCapIff | src/tickwright/engine/guard.py:254-261 | every flatten order the net admits leaves the worst case inside the cap if and only if what is open on its side is inside the cap |
| Guard.FlattenBreaksCap | src/tickwright/engine/guard.py:254-261 | one reachable book where it does not |
| Identity.ParseUndoesRender | src/tickwright/domain/ids.py:36-49 | parsing undoes rendering if and only if the symbol is colon-free |
| Identity.ParseLaw | src/tickwright/domain/ids.py:36-49 | exactly which texts parse, and into which parts |
| Identity.RenderIsInjective | src/tickwright/domain/ids.py:27-38 | ids with colon-free symbols never share a text form |
| Identity.ColonSymbolCollides | src/tickwright/domain/ids.py:27-30 | with a colon in a symbol two ids can |
| Identity.SeqHighWater | src/tickwright/engine/cache.py:84-105 | the fold covers every record, place and cancel of a strategy, and is one of them |
| Identity.HighWaterRecovers | src/tickwright/engine/strategy_host.py:171-189 | that fold is what a start needs |
| Identity.RecordedBeforeSent | src/tickwright/domain/emitter.py:139-149 | a new id is durable in the records and past every id sent |
| Identity.NeverTwice | src/tickwright/engine/execution.py:271-350 | over any run with crashes no two published signals share an id and no order reaches the venue twice |
| Identity.OnlyApprovedSent | src/tickwright/engine/execution.py:271-340 | over any run whatever reaches the venue was approved when its signal was first handled |
| Identity.DeniedNeverSent | src/tickwright/engine/execution.py:317-327 | a denial is final through redeliveries and crashes |
| Identity.ApprovedReaches | src/tickwright/engine/execution.py:271-350 | recorded, published, approved and sent in one life, a signal reaches the venue |
| Identity.CancelMarks | src/tickwright/engine/execution.py:365-402 | a cancel marks an unmarked order with its own seq, once |
| Liquidation.LevelIsUnique | src/tickwright/domain/valuation.py:197-326 | the price is the one mark at which backing equals maintenance when its symbol alone is re-marked |
| Liquidation.IsolatedLevel | src/tickwright/domain/valuation.py:197-326 | on a bucket: at the price, collateral plus the symbol's PnL is its rate of the notional |
| Liquidation.CrossLevel | src/tickwright/domain/valuation.py:197-326 | on the account: at the price, equity is what all its symbols owe |
| Liquidation.NothingGuessed | src/tickwright/domain/valuation.py:310-326 | no price without a net, a mark, a rate, and a known bucket or a mark for every exposed symbol |
| Liquidation.LevelIgnoresMark | src/tickwright/domain/valuation.py:299-302 | the symbol's current mark does not move it |
| Liquidation.ReportedIff | src/tickwright/domain/valuation.py:310-326 | a long has a price if and only if its backing falls short at a mark of zero, a short if and only if it does not |
| Liquidation.IsolatedShortHasPrice | src/tickwright/domain/valuation.py:310-313 | a short on its own bucket always has one |
| Liquidation.CrossShortPricedIff | src/tickwright/domain/valuation.py:310-326 | on an account that holds one symbol a cross short has a price if and only if net cash is positive |
| Liquidation.CrossShortCanHaveNone | src/tickwright/domain/valuation.py:310-313 | a ledger whose cross short has none |
| Quantizer.QuantizedIsValid | src/tickwright/domain/instrument.py:150-163 | the result is inside both caps or an integer, a power of ten crossed on the way up included |
| Quantizer.QuantizesToBest | src/tickwright/domain/instrument.py:150-163 | the greatest valid price at or below a buy's, the least at or above a sell's |
| Quantizer.QuantizeTwice | src/tickwright/domain/instrument.py:150-163 | idempotent by value |
| Quantizer.SizeIsLargest | src/tickwright/domain/instrument.py:140-147 | never more than intended, and the most the lot allows |
| PaperBook.RestingBook.Rest | src/tickwright/adapters/paper/book.py:59-69 | the working size is capped at the asked size |
| PaperBook.RestingBook.Shrink | src/tickwright/adapters/paper/book.py:83-90 | what is working only goes down |
| PaperBook.RestingBook.ApplyFill | src/tickwright/adapters/paper/book.py:92-110 | a fill is capped to what works; completion lifts the order off and says whether it was shrunk |
| PaperBook.RestingBook.Remove | src/tickwright/adapters/paper/book.py:121-125 | lifts the order off and returns it |
| PaperBook.UnappliedFills.Drain | src/tickwright/adapters/paper/unapplied.py:50-56 | drops exactly the fills the store applied, keeping the order |
| PaperBook.UnappliedFills.SignedSize | src/tickwright/adapters/paper/unapplied.py:32-43 | sums what is left of a symbol after draining |
| PaperBook.NeverOverfills | src/tickwright/adapters/paper/book.py:83-110 | reported fills never pass the working size nor the asked size, and a completing fill says shrunk exactly when its reports end short |
| PaperBook.BookMoves | src/tickwright/adapters/paper/book.py:59-125 | an order rests once at the lesser size, and shrinks or leaves as told |
| PaperBook.FillIsReported | src/tickwright/adapters/paper/book.py:92-110 | a fill of a resting order is reported at what was working of the offer, on the order's symbol and side, and stays pending until applied |
| PaperBook.NetIsComplete | src/tickwright/adapters/paper/exchange.py:533-542 | whenever the store applies each fill, its net plus what is unapplied is the start plus every fill reported |

## Left out

- `Decimal` arithmetic rounds at 28 digits; the model computes on exact reals, so a rounding residue below that never appears in it.
- blake2b is taken as injective, wall clocks as not stepping back, and stamps of leftover moves and reconcile passes as their own.
- Fills and partition sizes off the lot grid: the split truncates to lots and the venue fills on them.
- Flatten fees round on any positive step; the source's step, twenty digits below the fee, is one of them.
- Projection.PortfolioProjection.ApplyFill: does not model the isolated collateral a fill locks or frees, because no other figure of the ledger reads it.
- Projection.Checkpointer.CheckpointFill: does not model that collateral on the rows it writes.
- Projection.Checkpointer.CheckpointHeal: does not model the isolated collateral a snapshot re-ingests in the same transaction.
- HealCycle.LedgerReconciliation.ReconcileAccount: does not model that ingest either, so a cycle that only moves collateral writes nothing here.
- Tier-2 valuation bands, staleness, alert suppression and leverage drift: they alert and change nothing.
- `HealsConverge` is for verified mode and no fills; `PassLaw` and `Classify` state what fills and an unverified mode hold back.
- The refusals of a store that must not be traded, and the opening of the account row.
- `_drive`'s worklist, the failed-read freezes, the in-flight budget and the ghost gate's clock: the gate enters as its verdict.
- Adoption is modelled as on the in-memory bus, where a published fact is handled before the next line runs.
- The log bus is one partition with one top-level publisher; several partitions, redelivery of dropped records and what a later commit does to earlier offsets are client behaviour.
- A handler is a function of the world and the event; subscribing during a dispatch and malformed records are left out.
- The guard takes its size and price already rounded; the fault on a symbol with no spec and the kill switch's durable write are left out.
- `Identity.Parse` reads decimal digits only, where the source's integer parse accepts more spellings.
- The liquidation price above the first maintenance tier, and the venue's own number read through on live.
- Stale paper fills an earlier run made, the fill model, funding generation and the exit run's loop.
- The composition root, configuration, logging, the SQL and network adapters.
