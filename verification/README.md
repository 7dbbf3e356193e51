# Relay, modelled and proved in Dafny

Relay copies won Salesforce deals into an ERP. A poller reads half-open windows of Salesforce's clock and puts one
message per deal version on a queue that may deliver more than once and in any order. A worker maps each message to
an order and writes order, invoice and customer in one conditional transaction. What cannot be mapped goes to a
dead-letter queue, from which an operator can move messages back. A nightly reconciler compares both sides and
re-enqueues what is missing. A small query engine stands in for Salesforce.

This project models that code and proves that it keeps its promises in every run: nothing published is lost, the ERP
tables always agree and only move forward, nothing behind a watermark was missed, and once the queue is drained every
won deal is in the ERP at its current version or has its event on the dead-letter queue.

`dafny verify dfyconfig.toml` checks everything.

## How it is built

| files | what they hold |
|---|---|
| Prelude, Calendar, Decimals, Amounts, Sorting | optional values; instants and their text; exact decimals and their text; the amount texts a message may carry; stable sorting |
| Events, Mapping | the message and its validation |
| Erp, Outcomes, Customers | the three tables, the transaction, the classification of its answers, and what a customer row holds |
| Publisher, Poller | sending a window in batches; one poll, its watermark, and polls one after another |
| Queues, Worker, EsmPump, Redrive | a queue with receipts; the batch handler; the event source mapping; the operator's tools |
| Reconcile, StageLookup | the comparison, its repair, and the lookup of orphaned orders |
| Lexer, Soql, Parser, Grammar | tokens, queries and their reader, the parser class proved to agree with it, and a grammar it accepts exactly |
| Printing, RoundTrip | writing a query, and why the text means the query |
| QueryEngine, Refinement | the records, what a query answers, and what the pollers' own texts select |
| Paging | cursors over a snapshot and the client that follows them |
| Org, Sync, SyncRuns | Salesforce's commits, the whole pipeline as one step machine, and what can follow a state |
| SyncQueues, SyncErp, SyncPolls, SyncRows, SyncTruth, SyncTheorems | invariants of every step, and the theorems over every run |
| SyncRepair, SyncDrain, SyncLate | what a complete reconciliation repairs, how queues drain, and exactly when a late edit reaches the ERP |
| SyncLimits | where the promises about content end |
| SyncClasses, SyncPump, SyncRedrive | a poller's run, a worker's record and batch, a pump's cycle, a reconciler's run and an operator's redrive as actions of the machine |

Time is a number of milliseconds since 1970, the unit of a version. Salesforce stamps whole seconds and SOQL literals
are whole seconds, so `Truncate` is explicit everywhere. A service call that may fail is a parameter that says how
it ends (`Env`, `Reply`, `Fate`, `Weather`, `Call`, `Move`); the theorems hold for every such parameter. In `Sync` an
action that is not possible changes nothing, so every sequence of actions is a run and the theorems quantify over all
of them: any number of overlapping polls, workers, redrives and reconciliations, crashes, lost acknowledgements,
expired holds and failed sends.

## What the proofs found

- The reconciler measures a deal's age by its own clock (reconciler/app.py:35), not by Salesforce's, and each
  invocation chooses its grace (app.py:41). Two published events with one key carry the same deal content in every run
  exactly when every grace is at least the poller's lag, plus one second, plus how far that clock may run ahead
  (`SyncLimits.StableExactlyWhenPatient`). With the shipped ten minutes and a lag of two, that leaves a little under
  eight minutes for the clock.
- The account's name is outside that promise. Renaming an account does not restamp its deals, so one key can be
  published with two customer names (`SyncLimits.RenameChangesPublishedName`). Without renames the whole row is stable
  under the same condition.
- A late edit into a second whose version the ERP already has is lost for good, in every configuration
  (`SyncLate.LateEditIsLost`): versions agree, so until the deal itself is edited again no later poll, delivery, redrive
  or reconciliation changes that order, whatever else happens in Salesforce (`SyncLate.StuckForGood`). It is not lost
  where the ERP is still behind. The exact condition, for a won deal at its highest stamp: every continuation in which
  the deal is not edited again nor deleted, a complete reconciliation reads it, and its messages drain, ends on the
  deal's own fields if and only if the order at that version has them, or, where the ERP is behind, every row of that
  version that waits on a queue, is parked, or was read by a poll or reconciliation under way has them
  (`SyncLate.AgreesExactlyWhenWellTold`).
- A partial publish can move the watermark back, within its own second. It takes both a watermark with a sub-second
  part, which only a configured start or somebody else can write, and a later row stamped in that same second, which
  Salesforce's whole-second stamps rule out (`Poller.BackExactlyWhenStraddled`). From a whole second, or over whole
  stamps, it never happens (`Poller.NeverBack`).
- `Publish` takes entry ids from the queue's answer. If the answer to the last batch names only entries that are not in
  it, the count is the full length although an error is returned, and that is the only way
  (`Publisher.CountIsExactUnlessStrangers`, `Publisher.OneStrangerMisleads`). What the count calls sent was stored in
  any case. The count is negative, and the run panics, exactly when the reply the sending stops at has only readable
  ids and one of them points before the first event (`Publisher.NegativeExactly`); one id of -1 in the first reply does
  it (`Publisher.OneNegativeIdPanics`).
- The client renews a token once per request. A query whose only trouble is tokens fails exactly when one of its
  requests is refused twice: its first token is no longer taken, and the new one ends before its own request
  (`Paging.Client.QueryAll`, `Paging.RefusedTwice`). Tokens that live no time at all do that (`Paging.BriefTokensFail`).
- The customer row follows the last accepted write, whatever its version (`Customers.CustomerHolds`). Its name does not
  depend on the order of deliveries exactly when some deal ends on the customer and all orders that could name it last
  agree (`Customers.NameSettlesExactly`); `Erp.CustomerDependsOnOrder` is a pair of orders that do not.
- The date check of the mapping lets one trailing newline through, as Python's `$` does, and the order then carries it
  (`Mapping.NewlineDateIsMapped`).

## Model

| member | source | states |
|---|---|---|
| SyncQueues.NoEventIsLost | worker/app.py:67-149 | In every reachable state each published event is on the main queue, on the dead-letter queue, or its deal's stored order is at its version or later |
| SyncQueues.WriteKeeps | erp/writer.py:77-188 | A worker's write, however the database answers, leaves every published event kept |
| SyncQueues.AcknowledgeKeeps | tests/harness/esm_pump.py:137-145 | Deleting an acknowledged message leaves every published event kept |
| SyncQueues.ExhaustKeeps | template.yaml:61-68 | Moving a message to the dead-letter queue on the receive after the fifth leaves every published event kept |
| SyncQueues.DropKeeps | relayctl/ops/dlq.go:157-163 | Deleting a dead letter after its copy was sent leaves every published event kept |
| SyncErp.TablesAlwaysAgree | erp/writer.py:86-161 | In every reachable state each order has one agreeing invoice and a customer, each invoice its order, and each order is the mapping of a published event |
| SyncErp.ErpIsDeliveries | erp/writer.py:77-161 | In every reachable state the tables are what some sequence of deliveries, each of a published event, leaves behind |
| SyncErp.TablesOnlyMoveForward | erp/writer.py:86-161 | Between any two points of a run nothing disappears, versions and revisions never fall, and creation times stay |
| SyncTheorems.NothingBehindTheWatermarkIsMissed | ingest/poller/poller.go:72-127 | For every run with partial publishes, failed watermark writes and overlapping polls, a won deal committed within the lag and stamped from the start to any watermark ever written was published at that stamp |
| SyncTheorems.OneKeyOneContent | ingest/poller/poller.go:82-102 | Two published events with one key carry the same deal content, and without account renames the same row, unless an edit of that deal in that second committed late |
| SyncTheorems.AtRestEveryDealAgrees | ingest/poller/poller.go:72-128 | With the main queue drained and a watermark past the deal, every won deal at its highest stamp, with no late edit in that second, has order and invoice at its current version with its own fields, or an event for that version on the dead-letter queue |
| SyncTheorems.AtRestOrderIsTheDeal | worker/mapping.py:49-82 | With no dead letter for it and no account renamed, the deal can be mapped and its order is exactly that mapping |
| SyncLimits.StableExactlyWhenPatient | reconciler/reconcile.py:66-97 | Over all runs with at least this grace, content per key is stable, and rows per key in runs without renames, if and only if the grace is at least the lag plus one second plus the clock's lead |
| SyncLimits.ImpatienceMixesContent | reconciler/app.py:34-42 | With a shorter grace there is a run, without late edits or renames, that publishes one key with two contents |
| SyncLimits.RenameChangesPublishedName | internal/events/event.go:54-58 | For every configuration there is a run without late edits that publishes one key with two account names |
| SyncRepair.ReachedDealsSettle | worker/app.py:67-124 | Once a row of the deal's current version was published, a drained queue leaves the ERP with the deal's own fields, that row on the dead-letter queue, or the ERP at that version with other content; late edits included |
| SyncRepair.EnqueueReaches | reconciler/reconcile.py:84-96 | Enqueueing all a reconciliation wants publishes every deal it covers, or the ERP is already at its version, however old its scan |
| SyncRepair.ReconciledDealsSettle | reconciler/app.py:34-67 | The same three ends for a deal read and wholly enqueued by a reconciliation, if it is still at that stamp, its highest, when the queue has drained |
| SyncRepair.DeletedDealIsReported | reconciler/reconcile.py:98-109 | A deleted deal leaves its order behind, and every report on the deals and orders there are then says that the deal was not found |
| SyncLate.StuckForGood | erp/writer.py:101-101 | Once the ERP is at a deal's highest stamp, no run that commits no edit of that deal changes its order: time may pass, other deals change and accounts be renamed; and while the deal exists, whether its order agrees with it never changes |
| SyncLate.LateEditIsLost | reconciler/reconcile.py:91-96 | For every configuration there is a reachable state with empty queues and a won, mappable deal at its highest, late-joined stamp whose order has that version and another edit's content, and keeps it in every run that commits no edit of the deal, as long as the deal exists |
| SyncLate.AgreesExactlyWhenWellTold | reconciler/reconcile.py:84-96 | From any reachable state, every continuation that commits no edit of the deal and keeps it, reconciles it and drains its messages ends with the order agreeing, if and only if the order at that version agrees already, or the ERP is behind and every pending row of that version has the deal's fields |
| SyncDrain.Drain | worker/app.py:93-124 | Once the ERP has a version, some continuation clears both queues of every message that could become it and changes nothing else |
| SyncClasses.PollerRunIsActions | ingest/poller/poller.go:72-128 | A finished run of the poller class is a sequence of the machine's actions with the same events and watermark |
| SyncClasses.RecordIsActions | worker/app.py:93-124 | Handling one record is a sequence of the machine's actions with the same ERP, dead letter and acknowledgement |
| SyncClasses.BatchIsActions | worker/app.py:67-90 | The worker's loop over a batch is a sequence of the machine's actions with the same outcomes, ERP, acknowledgements and letters in order |
| SyncClasses.CycleIsActions | tests/harness/esm_pump.py:121-145 | Receiving a batch, handling any number of its records, handing the rest back and deleting any acknowledged messages is a sequence of the machine's actions |
| SyncPump.RunCycleIsActions | tests/harness/esm_pump.py:121-145 | A cycle as the pump's contract states it, over a queue that mirrors the machine's and a batch with receives left, is a sequence of the machine's actions after which the queues mirror each other again |
| SyncRedrive.RedriveIsActions | relayctl/ops/dlq.go:126-168 | A redrive as its contract states it, wherever it stops and whether or not a delete found its receipt good, is a sequence of the machine's actions that sends the same events back in the same order and takes the same letters away |
| SyncClasses.ReconcilerRunIsActions | reconciler/app.py:34-67 | Reading the won deals, scanning page by page over a changing ERP, comparing and enqueueing is a sequence of the machine's actions that publishes whatever was stored of the comparison's list |
| SyncPolls.SendCovers | ingest/poller/poller.go:104-123 | The watermark after a publish, whole or partial, has only published rows of the window behind it |
| SyncPolls.QueryCovers | ingest/poller/poller.go:82-90 | The rows of a window that trails the clock by the lag list every on-time won deal stamped in it |
| Org.NothingNewBehind | ingest/poller/poller.go:82-82 | Behind a mark that trails the clock by the lag no on-time commit can appear or change |
| Org.GenuineStays | ingest/poller/poller.go:82-82 | What a row read from a settled second shows stays true for good, unless a commit of its deal was late |
| Erp.Database.TransactWriteItems | erp/writer.py:86-161 | The three conditional updates happen together or not at all, and a refused condition can return the stored item |
| Erp.Database.WriteOrder | erp/writer.py:77-83 | A result is reported only when the stored order is at the incoming version or past it; a refused write is Duplicate exactly when the order is at that version and Stale exactly when it is at a higher one, Written means this call was evaluated and accepted, and a failed call is Rejected exactly for invalid data |
| Erp.RaceSafe | erp/writer.py:164-195 | For every answer, every concurrent writer and a fallback read that may fail, a success means the order is stored at that version or later, and Written means this call's transaction was evaluated and accepted |
| Erp.RefusalMeans | erp/writer.py:164-181 | A refused write ends in Duplicate exactly when the order that refused it has the incoming version and in Stale exactly when it has a higher one; without the returned item the same over what the fallback read finds, and an error when that read fails |
| Erp.FailureMeans | erp/writer.py:164-195 | A call that failed otherwise is never reported as stored, and is Rejected exactly for invalid data with nothing transient beside it |
| Erp.LateReadIsSafe | erp/writer.py:164-195 | A condition that failed is classified duplicate or stale even when the fallback read happens at any later time |
| Erp.RejectedExactly | erp/writer.py:164-188 | An answer is permanent exactly when the database called the data invalid and nothing transient came with it, and only a failed condition gives a result |
| Erp.JudgeIsSafe | erp/writer.py:171-178 | Duplicate means the stored version is equal, stale that it is higher |
| Erp.TransactIsLater | erp/writer.py:90-120 | One transaction moves the tables only forward and leaves the order stored at the incoming version or later |
| Erp.TransactKeepsIntegrity | erp/writer.py:86-161 | One transaction keeps every order paired with an agreeing invoice and a customer |
| Erp.DeliveryFold | erp/writer.py:77-120 | After any deliveries, with duplicates and in any order, a deal's order is the first delivery of its highest version, created at the first delivery, with one revision per delivery newer than all before it |
| Erp.DeliveryConverges | erp/writer.py:77-120 | When payload is a function of version, two delivery sequences with the same deliveries leave the same version and payload |
| Customers.AcceptsExactly | erp/writer.py:101-101 | After any deliveries the next one is accepted exactly when it is newer than every one of its deal before it |
| Customers.CustomerHolds | erp/writer.py:144-160 | After any deliveries a customer has a row exactly when an accepted one names it, with the name and key of the last such and the creation time of the first |
| Customers.NameSettlesExactly | erp/writer.py:144-160 | With one payload per version, every sequence of the same orders leaves the same customer name if and only if nobody names the customer, or some deal ends on it and all orders that can name it last agree |
| Erp.CustomerDependsOnOrder | erp/writer.py:144-160 | Two concrete orders of one customer leave different names in their two orders of delivery |
| Mapping.DecodeWire | worker/mapping.py:38-82 | Decoding a published row gives its order exactly when the row can become one |
| Mapping.RejectionReason | worker/mapping.py:63-70 | Missing account is reported before missing amount, and a negative amount is an invalid field |
| Mapping.ReasonExactly | worker/mapping.py:38-101 | Each reason a message can be rejected with, and the exact condition for it, whoever sent the message |
| Mapping.FieldsArrive | worker/mapping.py:49-82 | The order of a published row has the row's own fields, key and stamp |
| Mapping.AcceptedExactly | worker/mapping.py:49-101 | A message is accepted exactly when every field is acceptable, and the order carries the message's own fields |
| Mapping.DecodedOrderIsSound | worker/mapping.py:49-101 | Whatever the message, a decoded order has a positive version, an amount that is not negative, a date and no empty required text |
| Mapping.NewlineDateIsMapped | worker/mapping.py:68-70 | After a proper date the check accepts nothing or one newline, and the order carries it |
| Decimals.PrintedDecimalReads | worker/mapping.py:92-101 | A printed decimal is read back the same by the wider rules for amount texts |
| Amounts.ReadsExactly | worker/mapping.py:92-101 | With white space around it and underscores taken out, a text is read as an amount exactly when it spells it: an optional sign, digits with at most one point, an optional exponent |
| Amounts.UnderscoreIsIgnored | worker/mapping.py:92-101 | An underscore inside an amount means nothing |
| Decimals.PaddingIsIgnored | worker/mapping.py:92-101 | White space around an amount does not matter |
| Decimals.ShiftScales | worker/mapping.py:92-101 | An exponent of zero or more multiplies the amount by its power of ten |
| Decimals.ShiftDownScales | worker/mapping.py:92-101 | A negative exponent divides the amount by its power of ten |
| Events.EventKeyIsInjective | internal/events/event.go:59-62 | An event key names one version of one deal |
| Events.MessageTells | internal/events/event.go:59-76 | A message also carries the stage, and when it was published, to the second |
| Calendar.DateOfInverts | internal/salesforce/datetime.go:30-32 | The calendar date of every day number is valid and has that day number |
| Calendar.LiteralParses | internal/salesforce/datetime.go:18-32 | A SOQL literal reads back as its instant without the sub-second part, whatever text follows |
| Calendar.NormalisedParses | reconciler/events.py:17-27 | The millisecond form reads back as exactly its instant |
| Calendar.OffsetParses | fake_salesforce/soql.py:104-109 | A literal with an offset is that much earlier or later, with or without the colon |
| Calendar.ShortFractions | fake_salesforce/soql.py:104-109 | A fraction of a second counts by its place, cut to the millisecond |
| Calendar.ParsedIsInRange | fake_salesforce/soql.py:104-109 | A literal that reads has its fields in range |
| Decimals.DecimalTextParses | fake_salesforce/soql.py:188-188 | Printing a decimal and reading it back gives the same coefficient and scale |
| Publisher.Publish | ingest/poller/aws.go:36-76 | For any replies, the requests are batches of at most ten that join up to a prefix of the events, all of the first n were stored, and without an error n is the full length |
| Publisher.CountMeans | ingest/poller/aws.go:59-73 | On the replies alone: where the sending stops with readable ids, n is that batch's start plus the smallest id it reports below its size; with a refused request or an unreadable id n is the batch's start |
| Publisher.CountIsExactUnlessStrangers | ingest/poller/aws.go:59-73 | n is the full length exactly when there is no error, unless the last batch's reply names only entries outside it |
| Publisher.OneStrangerMisleads | ingest/poller/aws.go:59-73 | A concrete reply that gives the full length with an error |
| Publisher.NegativeExactly | ingest/poller/aws.go:59-73 | n is negative exactly when the reply the sending stops at has only readable ids and one of them points before the first event |
| Publisher.OneNegativeIdPanics | ingest/poller/aws.go:59-73 | A concrete reply that gives -1 |
| Publisher.SendChunk | ingest/poller/aws.go:38-73 | The count returned for one batch, unless negative, is a prefix the queue stored |
| Publisher.StrangersLookComplete | ingest/poller/aws.go:60-73 | A failed batch counts as whole exactly when its reply names only entries outside it |
| Poller.Watermark.Get | ingest/poller/aws.go:93-103 | The start if nothing was stored, else the instant of the stored text, or an error |
| Poller.Watermark.Set | ingest/poller/aws.go:106-114 | A stored watermark reads back as the instant without its sub-second part |
| Poller.Runner.Run | ingest/poller/poller.go:72-128 | A run with no window or no answer changes nothing; any other publishes a safe prefix and moves the watermark as the partial rule says, and panics exactly for a negative count |
| Poller.Runner.PublishAndAdvance | ingest/poller/poller.go:92-127 | Publishing and the watermark write as one step, with the keys, counts and errors reported |
| Poller.UpperIsLatest | ingest/poller/poller.go:82-82 | A window ends at the latest whole second the lag behind Salesforce's clock |
| Poller.NothingHeldBack | ingest/poller/poller.go:104-123 | Once something was sent, a kept watermark reaches every whole second of the window with no unsent row before it |
| Poller.RunReports | ingest/poller/poller.go:92-127 | The count, the keys in order and the new mark that a run reports are those of what it did |
| Poller.PassedMeansSent | ingest/poller/poller.go:109-122 | Every row the new watermark passes was sent |
| Poller.NeverBack | ingest/poller/poller.go:104-127 | From a whole second, or over whole-second stamps, a poll never moves the watermark back; it leaves it alone or at a whole second, and a clean poll moves it to the end of its window |
| Poller.BackExactlyWhenStraddled | ingest/poller/poller.go:109-122 | Some way of sending an answer moves the watermark back if and only if the watermark has a sub-second part and a row after the first is stamped later in that same second |
| Poller.BackExactlyFromSubSeconds | ingest/poller/aws.go:93-107 | Some answer of the window allows that if and only if the watermark's millisecond part is neither 0 nor 999, and no answer with whole-second stamps does |
| Poller.LaterRowsAreLater | ingest/poller/poller.go:72-128 | Over any sequence of polls no row sent is older than the second the first began in; the watermark does not fall behind that second, nor behind where it began if that is a whole second or all stamps are |
| Poller.CleanPollsNeverRepeat | ingest/poller/poller.go:72-128 | Polls that all succeed publish no key twice, whatever happens to the deals between them |
| Poller.IdleOrgPublishesNothing | ingest/poller/poller.go:82-90 | After a clean poll past every stamp the next window is empty |
| Queues.Queue.Send | worker/app.py:137-143 | A sent message is added under the next id, and nothing else changes |
| Queues.SentIsFresh | worker/app.py:137-143 | The next id of a sound queue is unused, and sending keeps it sound |
| Queues.Queue.Receive | tests/harness/esm_pump.py:122-130 | Up to the limit of visible messages are delivered, become hidden, count one more receive and get new receipts |
| Queues.ReceivedAllDelivers | tests/harness/esm_pump.py:122-130 | A receive delivers distinct visible messages and changes nothing else |
| Queues.ReceivesWhatItCan | tests/harness/esm_pump.py:122-130 | A receive that brings less than its limit leaves nothing visible that it was offered |
| Queues.Queue.Delete | tests/harness/esm_pump.py:137-145 | A delete removes the message only through its newest receipt |
| Worker.Worker.Handler | worker/app.py:67-90 | The records are handled in order up to where the time is short or the process crashes, none is started after that and none is left over without such a reason, and the response lists exactly those not acknowledged |
| Worker.StopsOnce | worker/app.py:67-90 | Where a batch stops follows from the clock and the crash alone |
| Worker.Worker.HandleRecord | worker/app.py:93-118 | One record's outcome and its effect on ERP and dead-letter queue |
| Worker.Worker.DeadLetter | worker/app.py:127-149 | A parked record is on the dead-letter queue with its body and reason, or nothing changed |
| Worker.ParkedLetter | worker/app.py:127-149 | A parked letter has the record's body, its event key or else its message id, and the reason the mapping gave or that the ERP rejected it |
| Worker.EvaluatedOutcome | worker/app.py:93-118 | A mappable record whose write was evaluated ends in Written when nothing is stored or something older, in Duplicate at its own version and in Stale behind a higher one |
| Worker.FailuresExact | worker/app.py:67-90 | With distinct ids a record is in the response exactly when it was not acknowledged |
| Worker.GivenUpExactly | worker/app.py:93-118 | A record is given up exactly when it cannot be mapped or the database called its data invalid; every other failure is retried |
| Worker.RetriedExactly | worker/app.py:93-118 | A record is left for a retry exactly when the failure is one that may pass |
| Worker.HandleIsSafe | worker/app.py:93-124 | Acknowledging a record is safe: its order is stored at its version or later, or a dead letter has its body |
| Worker.BatchIsSafe | worker/app.py:67-118 | The same for a whole batch, and nothing stored or parked is undone |
| EsmPump.Invoke | tests/harness/esm_pump.py:79-118 | How each kind of reply is read: the batch failed, an exception, or the set of failed ids |
| EsmPump.ReplyMeans | tests/harness/esm_pump.py:79-118 | Which verdict each reply gets: failed ids exactly when every listed item names a message of the batch, with the conditions for the others |
| EsmPump.ReadEncoded | tests/harness/esm_pump.py:96-118 | A well-formed partial response reads back as exactly the ids it lists |
| EsmPump.Pump.RunCycle | tests/harness/esm_pump.py:121-145 | The messages that leave the queue are exactly those whose record was acknowledged, none of a record whose turn came after the time limit, and none at all if the invocation died or its answer was lost; the statistics count the batch, its failures and its deletes |
| EsmPump.Pump.DeleteDone | tests/harness/esm_pump.py:137-145 | Exactly the messages not reported as failed are deleted, apart from deletes that fail, and each is counted |
| EsmPump.CountsAddUp | tests/harness/esm_pump.py:131-145 | Of an answered batch each message is counted once, as failed or as deleted |
| EsmPump.DeletedWasSafe | tests/harness/esm_pump.py:121-145 | Whatever a cycle deletes is in the ERP or has a dead letter with its body |
| Redrive.Peek | relayctl/ops/dlq.go:47-77 | A look loses nothing, lists each message once, oldest first, while holds last hides exactly what it lists, and when every call works and offers every message lists everything visible up to its limit |
| Redrive.Release | relayctl/ops/dlq.go:100-106 | Exactly the held messages of good receipts become visible again, apart from releases that fail |
| Redrive.ListDlq | relayctl/ops/dlq.go:109-113 | Listing removes nothing, lists everything visible below its limit when given the chance, and with lasting holds hides exactly the listed messages whose release failed |
| Redrive.MoveListed | relayctl/ops/dlq.go:132-168 | The messages are handled in order up to the first whose send or delete fails; exactly those that may move did, in order, one copy each was sent and nothing else, and only they left |
| Redrive.MoveOne | relayctl/ops/dlq.go:140-160 | A message is deleted only after its copy was sent, and an unsent one is untouched |
| Redrive.Redrive | relayctl/ops/dlq.go:126-168 | For any send and delete failures every body stays on a queue, only messages counted as moved leave, the main queue gains exactly their copies in order and that of the one message whose delete failed, and permanent ones stay unless asked for; after a thorough look, with every send and delete working, everything visible that may move has left with its copy on the main queue; and with lasting holds only the one message whose delete failed, and those whose release failed, stay hidden |
| Redrive.Ended | relayctl/ops/dlq.go:144-167 | After the last release everything still waiting is as visible as before, apart from that one message and failed releases |
| Reconcile.Compare | reconciler/reconcile.py:66-109 | The report is the drift of every checked deal in order, then of every orphaned order in ascending order; an order is reported not found exactly when it is an orphan the lookup has no deal for, and not won with a stage exactly when the lookup has its deal at that stage, each once; and exactly the repairable deals are enqueued |
| Reconcile.FindingMeans | reconciler/reconcile.py:82-96 | A deal is fine exactly at its own version, missing exactly when it has no order and can become one, invalid, with the worker's own reason, when it cannot, and stale or ahead by version alone |
| Reconcile.OrphanReportMeans | reconciler/reconcile.py:98-109 | The same about orphaned orders for any list of them in ascending order, against the whole report |
| Reconcile.CountsTheChecked | reconciler/reconcile.py:66-81 | The number of checked deals is the number of rows old enough |
| Reconcile.DriftExactly | reconciler/reconcile.py:66-96 | The report has a line for exactly the findings of the checked deals |
| Reconcile.EnqueuedExactly | reconciler/reconcile.py:84-96 | Exactly the checked deals with a missing or older order are enqueued |
| Reconcile.ListOrphans | reconciler/reconcile.py:98-100 | The orders with no won deal, smoke-test ones aside, each once in ascending order |
| Reconcile.ScanOrderVersions | reconciler/reconcile.py:128-141 | The result is the pages read in order: every order on a page has a version in it, and every version was read from some page |
| Reconcile.ScanIsBetween | reconciler/reconcile.py:128-141 | While orders change between pages, a scan misses none that was there when it began and shows each between its version at the start and at the end |
| Reconcile.ScanOfTheSame | reconciler/reconcile.py:128-141 | Over an ERP at rest the scan is every order's version |
| Reconcile.RepairFixpoint | reconciler/reconcile.py:66-96 | After delivering what was enqueued, in any order and any number of times, a checked deal is not missing, and is stale if and only if it was stale and cannot be mapped |
| Reconcile.SecondReportIsClean | reconciler/reconcile.py:66-109 | A second report has no missing order, and stale ones only for deals that cannot be mapped |
| StageLookup.TextMeansTheLookup | reconciler/reconcile.py:112-122 | No id that passes the filter changes what the query asks |
| StageLookup.Lookup | reconciler/reconcile.py:112-125 | The deals found are exactly those that existed, under a well-formed id, when their chunk of a hundred was asked for |
| StageLookup.ReportTellsTheOrg | reconciler/reconcile.py:98-125 | Over an org that does not change, an orphan with a well-formed id is reported as not found exactly when no deal has its id, and as not won with exactly that deal's stage otherwise |
| StageLookup.ChunkAnswer | reconciler/reconcile.py:120-123 | One chunk's answer is exactly the deals with its ids |
| Lexer.MatchAt | fake_salesforce/soql.py:47-59 | Every match takes at least one character and at most the rest |
| Lexer.MatchIsLexical | fake_salesforce/soql.py:47-59 | A match is a whole literal of its kind on its own |
| Lexer.Tokenize | fake_salesforce/soql.py:90-101 | The loop ends and gives the tokens of the text or the malformed-query error |
| Lexer.TokensKeepTheText | fake_salesforce/soql.py:90-101 | The tokens hold every character but white space, in order |
| Soql.Meaning | fake_salesforce/soql.py:152-191 | An accepted literal is null or has its field's own type |
| Soql.AcceptedIsTyped | fake_salesforce/soql.py:217-271 | Every accepted query selects a field and compares each field only with its own type or null |
| Grammar.ReadsExactly | fake_salesforce/soql.py:217-271 | Tokens are read as a query exactly when the grammar spells that query with them: any case, both signs for unequal, ascending by default, no OR, nothing left over |
| Grammar.MeansExactly | fake_salesforce/soql.py:217-271 | A text means a query exactly when its tokens spell it |
| Grammar.LookupExactly | fake_salesforce/soql.py:139-150 | A text names a field exactly when it is that field's name in any case |
| Grammar.MeaningExactly | fake_salesforce/soql.py:152-191 | A token is read as a value of a field exactly when it spells it: null, or a literal of the field's own type |
| Grammar.MeaningErrors | fake_salesforce/soql.py:152-191 | Which error each misfitting literal gives |
| Grammar.FieldErrors | fake_salesforce/soql.py:139-150 | Which error each token that is no field gives |
| Grammar.OtherTable | fake_salesforce/soql.py:229-233 | A query over another table is an invalid type, whatever follows |
| Grammar.UnknownColumn | fake_salesforce/soql.py:139-150 | An unknown first column is an invalid field, whatever follows |
| Grammar.QuotedIsInvalid | fake_salesforce/soql.py:152-191 | A quoted text where the field is no text is an invalid field, whatever follows |
| Parser.TokenParser.ParseCondition | fake_salesforce/soql.py:193-214 | The cursor reads one condition exactly as the token grammar says |
| Parser.TokenParser.ParseTexts | fake_salesforce/soql.py:198-208 | The loop reads an IN list exactly as the token grammar says |
| Parser.TokenParser.ParseFields | fake_salesforce/soql.py:220-227 | The loop reads the field list exactly as the token grammar says |
| Parser.TokenParser.ParseWhere | fake_salesforce/soql.py:235-242 | The loop reads the conditions, and OR is an error |
| Parser.TokenParser.ParseOrderBy | fake_salesforce/soql.py:244-261 | The loop reads the sort keys, ascending unless they say DESC |
| Parser.TokenParser.ParseLimit | fake_salesforce/soql.py:263-268 | A limit is a whole number or an error |
| Parser.Parse | fake_salesforce/soql.py:217-271 | The parser gives what the text means, or the first error |
| Printing.RenderedTokens | fake_salesforce/soql.py:90-101 | The tokens of a rendered token list are that list |
| Printing.EscapeCloses | fake_salesforce/soql.py:50-50 | A quoted text ends at its own closing quote |
| Printing.UnescapeInverts | fake_salesforce/soql.py:191-191 | Unescaping undoes escaping for every text without backslashes |
| RoundTrip.ValueTokenMeans | fake_salesforce/soql.py:152-191 | A written value means itself in every field it fits |
| RoundTrip.ReadsQuery | fake_salesforce/soql.py:217-271 | Reading a written query's tokens gives the query |
| RoundTrip.WrittenMeansTheQuery | fake_salesforce/soql.py:217-271 | Tokenizing and parsing a written query gives it back, for every well-formed query |
| QueryEngine.ComparisonsAgree | fake_salesforce/store.py:134-152 | Below, equal and above exclude each other for values of one type, and null is never below or above anything |
| QueryEngine.ComparisonsMean | fake_salesforce/store.py:134-152 | What the comparisons mean for numbers, times, dates and texts, and IN as membership |
| QueryEngine.KeyOrderIsPreorder | fake_salesforce/store.py:162-167 | A sort key, ascending or descending, orders any records, nulls included |
| QueryEngine.Store.Sorted | fake_salesforce/store.py:154-160 | The passes from the last key to the first give the multi-key sort |
| QueryEngine.Store.RunQuery | fake_salesforce/store.py:169-179 | The result is the kept records, sorted and limited |
| QueryEngine.ArrangedIsExact | fake_salesforce/store.py:154-179 | Exactly the matching records, each as often as stored, by each key in turn, full ties as they were written |
| QueryEngine.LimitMeans | fake_salesforce/store.py:169-179 | A limit keeps that many from the front, and no limit keeps them all |
| QueryEngine.NullsAndValuesInPlace | fake_salesforce/store.py:155-160 | Nulls of the first key come first ascending and last descending, and values never go the wrong way |
| QueryEngine.Store.UpsertOpportunity | fake_salesforce/store.py:74-97 | The written deal merges the payload, takes the given stamp or the clock, and keeps its creation time |
| QueryEngine.WriteMeans | fake_salesforce/store.py:74-97 | Field by field: what a payload names is stored, what it does not name stays, and only a first write sets the creation time |
| QueryEngine.ReadsBack | fake_salesforce/store.py:123-132 | What was written is what a query reads, and the two flags follow the stage |
| QueryEngine.AccountReadsBack | fake_salesforce/store.py:123-132 | The account's fields are those of the account the deal names, and null where there is none |
| QueryEngine.Store.EditOpportunity | fake_salesforce/store.py:99-108 | An edit of a known deal changes the named fields and restamps it; an unknown one changes nothing |
| QueryEngine.Store.DeleteOpportunity | fake_salesforce/store.py:110-112 | Exactly that deal goes |
| QueryEngine.Store.Reset | fake_salesforce/store.py:55-58 | Everything goes |
| QueryEngine.Store.NewId | fake_salesforce/store.py:45-53 | The search ends with an id nothing has |
| QueryEngine.PutReplaces | fake_salesforce/store.py:96-96 | A write touches one deal and keeps every other |
| QueryEngine.PutKeepsPlaces | fake_salesforce/store.py:96-96 | A deal keeps its place when written again, and a new one comes last |
| Sorting.StableSortKeeps | fake_salesforce/store.py:158-160 | One stable pass orders by its key and keeps any earlier order among ties |
| Sorting.MultiSortSorts | fake_salesforce/store.py:154-160 | Passes from the last key to the first give a permutation in lexicographic order of all keys, with full ties in input order |
| Refinement.WindowText | ingest/poller/poller.go:63-69 | The poller's text means its window query, for every window |
| Refinement.WindowAnswer | ingest/poller/poller.go:63-69 | That query gives exactly the won deals stamped in the window, each once, by stamp and then Id |
| Refinement.TextGivesTheWindow | ingest/poller/poller.go:63-69 | Both together: the text, parsed and run on any store |
| Refinement.TextGivesTheWonDeals | reconciler/reconcile.py:39-42 | The reconciler's text, parsed and run on any store, gives every won deal once in the same order |
| Paging.NextUrlParses | fake_salesforce/server.py:49-49 | A next-page URL names its own cursor and offset |
| Paging.PagesTile | fake_salesforce/server.py:329-341 | Each page continues where the last one stopped, and the last one says so |
| Paging.EmptyPagesNeverEnd | fake_salesforce/server.py:329-341 | With a page size of zero the next page of a non-empty result is the same page |
| Paging.App.Serve | fake_salesforce/server.py:268-327 | Token, fault, query and cursor checks in that order with their statuses, and exactly one page of the snapshot otherwise |
| Paging.App.TakePage | fake_salesforce/server.py:329-341 | The last page closes the cursor |
| Paging.Client.GetToken | internal/salesforce/client.go:166-205 | The cached token, or a new valid one that is then cached |
| Paging.Client.Attempt | internal/salesforce/client.go:137-160 | One attempt gives one page of its cursor, and with nothing wrong but tokens it is refused exactly when its token is no longer taken when the request arrives |
| Paging.Client.GetJson | internal/salesforce/client.go:135-164 | At most two attempts, a page comes from the last one, and with nothing wrong but tokens it fails exactly when both are refused |
| Paging.Client.QueryAll | internal/salesforce/client.go:119-133 | For every page size of at least one it ends with an error or with exactly what the query answered when its first page was taken, in order, whatever changes meanwhile; with nothing wrong but tokens it fails exactly when one of its requests is refused twice |
| Paging.RefusedTwice | internal/salesforce/client.go:153-160 | A request is refused twice exactly when its first token is no longer taken and the renewed one ends before its own request |
| Paging.LastingTokensSurvive | internal/salesforce/client.go:153-160 | While every token an attempt gets is still taken when that attempt's request arrives, a query survives whatever ends later or between requests |
| Paging.BriefTokensFail | internal/salesforce/client.go:153-160 | Two tokens that end before their own requests make a query fail although nothing else goes wrong |

## Left out

- HTTP, OAuth forms, JSON text, AWS SDK calls, environment and parameter plumbing: each service call is a parameter that says how it ends.
- The poller's and reconciler's two event builders are one function. Python computes the version through a float (reconciler/events.py:32); the model keeps whole milliseconds.
- A row whose stamp cannot be parsed fails the whole run (poller.go:98-101); the model counts that as a failed query answer.
- An Account without a name: the Go builder publishes an empty text, the Python one null. Both are rejected the same way, and the model has one of them.
- Amounts pass through JSON numbers and a float (fake_salesforce/store.py:217); the model keeps the exact decimal. DynamoDB's number limits are not modelled.
- Non-ASCII digits, exponents beyond what a `Decimal` can hold, and deal names that are not text are not modelled.
- ISO date forms other than the ten-character one, which Python's `date.fromisoformat` also takes on a store write, are not modelled; a write carries parsed values.
- Human and timed deletion: `dlq ack`, message retention, smoke-test cleanup and hand-deleted ERP items remove state on purpose.
- Backoff delays, chaos rates and metrics: redelivery may happen at any later step, and a crash or ERP failure is a free choice.
- In Sync the dead-letter queue has no visibility of its own; Redrive has it, with receipts and holds, for one operator.
- A send that reports an error is taken not to have stored its message in Redrive and Worker; in Publisher, and in the publishes of Sync, it may have.
- The store's account upsert and the seed loader: an account is given with the data, and renamed in the step machine.
- The shape of the JSON that `project` builds, error messages, and the admin API.
- RoundTrip.WrittenMeansTheQuery: covers texts without backslashes, because the tokenizer's escapes and the parser's unescaping do not agree on them.
- Poller.Runner.Run: instants have four-digit years, as their text needs.
- Redrive.Redrive: states the visibility of what stays for holds that do not run out while the operator works; what is kept on which queue is stated without that.
- Parser.Parse: reads error codes, not their messages.
- SyncTheorems.AtRestEveryDealAgrees: asks that no edit of the deal's current second committed late, as the design does; SyncLate has the exact condition for late ones.
- SyncLate.AgreesExactlyWhenWellTold: compares the fields an order has, which leaves out the stage's name, and the account's name, which is not the deal's own.
- SyncPump.RunCycleIsActions: takes the worker's own writes only; other workers' writes are their own actions.
- SyncRedrive.RedriveIsActions: compares bodies, reasons and order; which queue id a copy gets and when it was sent are not in the machine.
- In Sync a reconciliation may enqueue after an incomplete scan, which allows more than the source does.
