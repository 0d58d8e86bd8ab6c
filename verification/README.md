# OPC DA to OPC UA adapter: a verified model

The adapter lets OPC UA clients use an OPC DA server. This project models the
stateful parts of it in Dafny and proves what they promise:

- **Publishing** (`Engine`, `EngineRuns`, `EngineAdmission`, `EngineCreation`,
  `EngineFeeding`, `EngineCollecting`, `EngineSemantics`, `EnginePacing`,
  `EnginePublishing`, `EngineLoops`, `FloatRounding`, `SubscriptionTraces`,
  `SubscriptionService`, `ServiceRuns`): which items are admitted and what each is,
  what a collection reports, held values and their pacing, the queue of
  notifications, message numbering, keep-alives, retransmission, and the DA group
  behind each subscription. `Engine` is the behaviour of one subscription as functions;
  `EngineRuns` runs it with its history; the loops and the service class are proved
  to compute those functions, and each live subscription of the service carries the
  run that led to it. `ServiceRuns` drives the service through any sequence of calls.
- **UA Binary** (`Wire`, `NodeIds`, `Layout`, `Variants`, `Messages`, `Writable`,
  `ReferenceBytes`, `Acceptance`, `Endpoints`, `Encoder`, `Decoder`): which values
  are written, byte by byte as what, what a reader makes of any bytes, and that
  reading undoes writing for whole messages. The last two hold the objects that do
  it, method by method.
- **The DA core** (`Coalescing`, `Wakeup`, `SafeArrays`, `Registrations`):
  coalesced updates, the notify token under interleaving, the array odometer, and
  the resolution of item registrations.
- **Protocols** (`SequenceNumbers`, `Continuations`, `Sessions`, `SessionHistory`,
  `Channels`). `SessionHistory` derives every answer of the session registry from the
  calls and answers before it.

`Ints` holds the fixed-width numbers and float64 comparisons they share.

Each method that runs under a mutex is one atomic step. `Wakeup` and the end hook
of `Sessions` are split further, at the point where the lock is released; Browse
takes its lock once a node, and `PointSurvives` says what may come between.

## Assumptions

- Go `int` has 64 bits.
- Random tokens, continuation identifiers and DA group identifiers are new each
  time; where drawing one can fail, the failure is an input.
- 32-bit counters of items, messages, subscriptions and sessions do not wrap. Sequence
  numbers, channel and token identifiers, DA array indices, Durations, lifetime
  counts and codec integers are modelled with their width.
- A float64 is a real number, an infinity or NaN; converted to an Int64 it does not
  fit, it becomes the smallest one, as on 386 and amd64. On the wire floats are
  their bit patterns and strings their bytes. Clock readings are integers, in
  nanoseconds. A deadband is rounded to a float32. The body of a monitoring filter is
  an input as decoded.
- The order in which Go ranges over a map is an input or an arbitrary choice.
- The DA source, COM and the address space answer as inputs say.

## Where the code and its description differ

- Sampling intervals are promised as revised, but compared after truncation to
  whole milliseconds and in wrapping Int64 arithmetic (`PromiseKeptExactly`); so
  are publishing intervals, session timeouts and lifetimes (`IntervalRevisedExactly`,
  `TimeoutRevisedExactly`, `LifetimesKeptExactly`, `LifetimeCountExactly`,
  `ExpiredAtBirth`). An interval of
  NaN passes under both floors (`FloorsKeptExactly`).
- A refused rebuild restores items, handles and group, but keeps a deadband it was
  the first to set (`RefusedCreateRestores`, `RefusedCreateLeavesItsDeadband`).
- A NaN deadband passes validation, and then no further item is accepted
  (`FilterRefusesExactly`, `DeadbandsThatPass`, `AcceptsSomethingExactly`).
- A client handle in use is refused because two items on one make notifications
  ambiguous; within one request it is not (`UniqueAfterCreateExactly`,
  `TwoItemsShareAHandle`).
- Two monitored items on one ItemID are said to be both fed; one is, or none if the
  one found first does not report (`FedExactly`).
- Every change of semantics is said to be told once; one that came with a held value
  that was overwritten is not (`SemanticsChangeToldExactly`,
  `SemanticsChangeIsLost`).
- The next subscription to publish is said to be one with something to say; it is
  one with the highest priority, and the others starve (`PickedExactly`,
  `StarvedExactly`, `LowerPriorityStarves`).
- The writer of array Variants does not check dimensions the reader insists on
  (`ArrayVariantReadExactly`, `InconsistentDimensionsAreRefused`).
- The floor of 24 bytes for a token policy exceeds the shortest policy, and the
  writer takes token types the reader refuses (`PoliciesReadExactly`).
- The array odometer leaves the array after a dimension that ends at 2^31-1, and
  sticks in one that ends past it (`OdometerExactly`, `VisitedAtLower`).
- The 64-bit product of dimensions wraps under bounds above 2^32+1, far over the
  configured maximum (`CountedExactly`).
- When the two tokens of a channel share an identifier, a live one can be hidden
  by an expired one (`ExpiredExactly`, `ShadowedChannel`).
- A revised token lifetime, session timeout or publishing interval can be zero when
  the configured minimum is under a millisecond (`LifetimeIsPositiveExactly`,
  `TimeoutIsPositiveExactly`, `IntervalIsPositiveExactly`).
- The search for a channel identifier never ends once all are taken and the limit is
  higher still (`FreeIdExactly`).

## Model

| member | source | states |
|---|---|---|
| `EnginePacing.HeldSlotRefinement` | internal/opcua/subscription.go:1701-1834 | In every run: the held order repeats nothing and names exactly the live items holding a value; every report of an item is a value that was held for it, in order, queued under its handle; each report comes at least the Int64 pace after the one before it, and any two are the promised interval apart if that can be kept; the newest value of a live item is held or queued unless an invalidation superseded it |
| `EnginePacing.PromiseKeptExactly` | internal/opcua/subscription.go:1776-1785 | Reports keep the revised sampling interval for all clock readings if and only if it is a whole number of milliseconds whose nanoseconds fit an Int64 |
| `EnginePacing.FractionalIntervalReportsEarly` | internal/opcua/subscription.go:1776-1785 | An item sampled every 1.5 ms reports again after 1 ms |
| `EnginePacing.LongIntervalReportsAtOnce` | internal/opcua/subscription.go:1776-1785 | An item sampled every 10^13 ms is due at once: the product wraps below zero |
| `EnginePacing.NoNumberReportsAtOnce` | internal/opcua/subscription.go:1776-1785 | So is one whose interval is NaN or infinite |
| `EnginePacing.RequestedIntervalIsNotBounded` | internal/opcua/subscription.go:1333-1345 | A client gets any such interval by asking for it |
| `EngineCollecting.FlushReportsWhatIsDue` | internal/opcua/subscription.go:1760-1795 | With publishing enabled a pass reports held values, each under the handle of its item, in the order the items began holding one; it holds back nothing that has never reported or whose interval is over, as far as the comparison can keep it; what it holds back keeps its value and place |
| `EngineCollecting.CollectLeavesNothingDue` | internal/opcua/subscription.go:1701-1813 | After any collection that does not find the group invalidated, every item that reports and cannot be read has been reported (or is held to be, with publishing disabled), and with publishing enabled nothing that is due is held back |
| `EngineCollecting.InvalidationTellsEach` | internal/opcua/subscription.go:1817-1834 | Under every map order, a collection that finds the group invalidated queues exactly one notification for each item that reports, under its handle and with the time exactly if its client asked for it, and none for the others; every slot is emptied, the group given up, and nothing else changes |
| `EngineCollecting.UnreadableToldOnce` | internal/opcua/subscription.go:1802-1813 | In every run an item's client is told at most once that it cannot be read, by its first report, and only items that cannot be, report, and have reported nothing are held to be told so |
| `EngineCollecting.NewestValueIsHeld` | internal/opcua/subscription.go:1721-1753 | Of the values one drain delivers for the ItemID of an item that reports and is alone on it, the item is left with the last; with none it is left as it was |
| `EngineCollecting.PlacesAreKept` | internal/opcua/subscription.go:1740-1752 | What is held keeps its place: whatever comes to be held later, by status or by value, comes after it |
| `EngineFeeding.FedExactly` | internal/opcua/subscription.go:1850-1857 | A source value reaches an item under every map order if and only if the item reports and no other item carries its ItemID |
| `EngineFeeding.TwinIsNotFed` | internal/opcua/subscription.go:1721-1732 | Of two reporting items on one ItemID, the second in map order is not fed |
| `EngineFeeding.DisabledTwinSilencesTheOther` | internal/opcua/subscription.go:1721-1732 | If the first is disabled, neither is fed |
| `EngineSemantics.SemanticsChangeToldExactly` | internal/opcua/subscription.go:1721-1795 | In every run, for every report of every item: the notification carries the semantics-changed bit if and only if the value reported is the one that brought a change; and a change since the report before is told of if and only if none was overwritten or the last value brought one too |
| `EngineSemantics.StepKeepsStep` | internal/opcua/subscription.go:1733-1752 | Every event keeps each item level with the generation its last held value saw |
| `EngineSemantics.SemanticsChangeIsLost` | internal/opcua/subscription.go:1733-1752 | An item sampled once a second whose value with a change is overwritten before it is due: the client is never told |
| `EngineCreation.CreatedAsAsked` | internal/opcua/subscription.go:1121-1345 | For every state and batch: a create is undone if and only if the source refuses, some request is admitted and something is there to be read; then items, handles and group are as before, each admitted request failed with the source's code and each other with the first refusal its checks, in order, come to. Otherwise each admitted request has an item of its own under a new, rising id, with the ItemID, mode, handle, timestamps, generation and readability it asks for and the interval its result gives: the least one no shorter than what was asked, the minimum of the node and the rate of the group; old items stay, there are no others, and the group covers exactly the readable ItemIDs of the old items and the admitted requests. Admission is a rule over the batch: acceptable for itself, and with the deadband of the group or of the first admitted |
| `EngineCreation.DeletedExactly` | internal/opcua/subscription.go:1400-1439 | A delete takes exactly the live items named, answered Good where named first, with the handles they carry; then the group covers exactly the rest that can be read, or there is none if nothing can or the source refuses; if none is live, nothing changes |
| `EngineCreation.FilterAsksFor` | internal/opcua/deadband.go:66-109 | A filter is taken if and only if it is absent, or a change of status or value with no deadband or a percentage not below 0 nor above 100; it asks for that percentage as a float32, else for nothing; which refusal the others get |
| `FloatRounding.RoundsToNearest` | internal/opcua/deadband.go:99-104 | The float32 a deadband is rounded to is one no other float32 is closer than; where another is as close, they are neighbours on one grid and the last bit of the one chosen is even |
| `EngineAdmission.UniqueAfterCreateExactly` | internal/opcua/subscription.go:1142-1195 | From a state whose handles each lead to their one item, client handles are unique after a create if and only if the accepted requests carry pairwise distinct handles or the source refuses the group |
| `EngineAdmission.TwoItemsShareAHandle` | internal/opcua/subscription.go:1279-1283 | One request sent twice in a batch is accepted twice; the table leads to the second item only |
| `EngineAdmission.DeletingOneForgetsBoth` | internal/opcua/subscription.go:1410-1430 | Deleting one of two items on a handle forgets the handle of the other, and a third is accepted on it |
| `EngineAdmission.HandlesStayUnique` | internal/opcua/subscription.go:1121-1196 | In every run whose creates accept distinct handles, each live item is the one its handle leads to, and no other carries it |
| `EngineAdmission.AcceptsSomethingExactly` | internal/opcua/subscription.go:1228-1239 | In every run some request would be accepted if and only if the deadband is not NaN |
| `EngineAdmission.NaNDeadbandIsFinal` | internal/opcua/subscription.go:1237-1239 | Once the deadband is NaN every create leaves the subscription as it is, no result Good |
| `EngineAdmission.NaNDeadbandIsAccepted` | internal/opcua/subscription.go:1228-1239 | A percent deadband of NaN is accepted and set |
| `EngineAdmission.FilterRefusesExactly` | internal/opcua/deadband.go:99-104 | The filter admits exactly the percentages from 0 to 100, if and only if the value is not NaN |
| `EngineAdmission.DeadbandComesFromAFilter` | internal/opcua/deadband.go:66-109 | In every run the deadband is one some filter asks for, rounded to a float32 |
| `EngineAdmission.FloorsKeptExactly` | internal/opcua/subscription.go:1315-1345 | The interval an item ends up with is at least the rate of the group and the minimum of its node if and only if the one requested is not NaN |
| `EnginePublishing.PublishConservation` | internal/opcua/subscription.go:1640-1682 | In every run the notifications of the data messages sent, then the pending ones, are exactly those ever queued, in order, and the k-th data message has number k |
| `EnginePublishing.KeepAliveConsumesNothing` | internal/opcua/subscription.go:1881-1903 | A keep-alive after n data messages carries number n+1 and changes neither queue nor numbering |
| `EnginePublishing.KeepAliveCadence` | internal/opcua/subscription.go:1881-1931 | In every run the first cycle is answered, and one of any keepAliveCount consecutive cycles is |
| `EnginePublishing.KeepAliveExactly` | internal/opcua/subscription.go:1881-1903 | In every run a cycle is answered if and only if there is something to send, or it is the first, or the keepAliveCount - 1 before it went unanswered |
| `EnginePublishing.MessagesAreFull` | internal/opcua/subscription.go:1905-1931 | A message carries the time of its cycle; a data message takes the front of the queue, no more than the limits of server and client, and where anything stays behind one of the two is reached; without anything to send or with publishing disabled nothing is taken |
| `EnginePublishing.RecentMessagesAreKept` | internal/opcua/subscription.go:1937-1945 | In every run a data message not acknowledged is still in the retransmission queue, as it was sent, until as many messages as the queue holds have been sent from it on |
| `EnginePublishing.RetransmissionQueueIsATail` | internal/opcua/subscription.go:1549-1614 | In every run the retransmission queue is a suffix of the data messages sent and not acknowledged, within its bound, its keys are its order list, and it holds under each number the message sent with it |
| `EnginePublishing.GroupMatchesItems` | internal/opcua/subscription.go:1349-1396 | In every run a DA group covers exactly the distinct ItemIDs of the readable monitored items |
| `EngineRuns.StepKeepsSlots` | internal/opcua/subscription.go:1701-1834 | Every service call and cycle keeps the agreement of items, held order and client handles |
| `EngineRuns.RefusedCreateRestores` | internal/opcua/subscription.go:1157-1195 | A refused rebuild during create leaves items, client handles and group exactly as before, and no result is Good; the id counter moves on, and the deadband stays if and only if one was set before |
| `EngineRuns.RefusedCreateLeavesItsDeadband` | internal/opcua/subscription.go:1285-1286 | A fresh subscription whose first create is refused holds no item and refuses every other deadband |
| `EngineRuns.StepIsSubStep` | internal/opcua/subscription.go:1640-1682 | The recorded history never changes what a subscription does |
| `EngineLoops.FlushHeld` | internal/opcua/subscription.go:1760-1795 | The loop over heldOrder computes the one-pass specification: due items queue in order, the others keep their place |
| `EngineLoops.HoldUnreadable` | internal/opcua/subscription.go:1802-1813 | The loop holds the status of each unreadable item once, whatever the map order |
| `EngineLoops.ItemFor` | internal/opcua/subscription.go:1850-1857 | The first item, in map order, fed by a DA ItemID |
| `EngineLoops.ReportInvalidation` | internal/opcua/subscription.go:1817-1834 | The loop over the items computes the invalidation that `InvalidationTellsEach` describes: one notification for each reporting item, and every slot emptied |
| `EngineLoops.RouteAll` | internal/opcua/subscription.go:1721-1753 | The drained values are routed one after another |
| `EngineLoops.QueueForRetransmission` | internal/opcua/subscription.go:1937-1945 | The oldest messages give way until the new one fits |
| `EngineLoops.GroupItems` | internal/opcua/subscription.go:1349-1362 | The distinct ItemIDs of the readable items, each once |
| `EngineLoops.Prepare` | internal/opcua/subscription.go:1142-1152 | Each requested item is validated in turn against the state the ones before it left, in which their handles are not entered yet; `CreatedAsAsked` says what comes of the batch |
| `EngineLoops.RegisterAll` | internal/opcua/subscription.go:1159-1162 | The accepted items are entered under id and handle |
| `EngineLoops.DeleteEach` | internal/opcua/subscription.go:1410-1430 | Each named item is removed with its handle, or answered invalid |
| `EngineLoops.Without` | internal/opcua/subscription.go:1558-1572 | The order list without the acknowledged number |
| `SubscriptionServices.UpdateKeepsAccounts` | internal/opcua/subscription.go:1349-1396 | A change that keeps the group keeps the ledger of groups |
| `SubscriptionServices.ReleaseKeepsAccounts` | internal/opcua/subscription.go:1388-1396 | Unsubscribing a held group keeps: every granted group is held by exactly one subscription or was unsubscribed once |
| `SubscriptionServices.GrantKeepsAccounts` | internal/opcua/subscription.go:1366-1385 | A newly granted group keeps the ledger |
| `SubscriptionServices.RemoveKeepsAccounts` | internal/opcua/subscription.go:1442-1467 | Forgetting a subscription without a group keeps the ledger |
| `SubscriptionServices.NothingLeftOpen` | internal/opcua/subscription.go:1957-1986 | Once no subscription is left, every group ever granted was unsubscribed exactly once |
| `SubscriptionServices.EveryGroupIsAccountedFor` | internal/opcua/subscription.go:1349-1396 | Along moments that forget nothing, a granted group is held by exactly one live subscription and not unsubscribed, or by none and unsubscribed exactly once, and then stays so |
| `SubscriptionServices.ClosesOne` | internal/opcua/subscription.go:1957-1986 | A subscription that goes takes exactly its own group with it |
| `SubscriptionServices.PickedExactly` | internal/opcua/subscription.go:1687-1698 | Some order of the range picks a subscription if and only if none of its session has a higher priority |
| `SubscriptionServices.StarvedExactly` | internal/opcua/subscription.go:1687-1698 | Every order passes a subscription over if and only if its session has one of higher priority |
| `ServiceRuns.Serve` | internal/opcua/subscription.go:1063-1986 | Any call keeps the ledger, forgets no group and no unsubscription, and gains no group but the one granted |
| `ServiceRuns.RunCalls` | internal/opcua/subscription.go:1063-1986 | From its start through any sequence of calls by any sessions, every group ever granted is at every later moment held by exactly one live subscription, or by none and unsubscribed exactly once; once no subscription is left, exactly the groups granted have been unsubscribed |
| `SubscriptionServices.LowerPriorityStarves` | internal/opcua/subscription.go:1684-1698 | Over any run of Publish calls a subscription with one of higher priority in its session is never given a cycle |
| `SubscriptionServices.SilentSubscriptionIsServedFirst` | internal/opcua/subscription.go:1684-1698 | A subscription with nothing to send is chosen before one with a full queue |
| `SubscriptionTraces.IntervalRevisedExactly` | internal/opcua/subscription.go:808-817 | Every requested publishing interval, infinite or no number included, is clamped between the limits if and only if its nanoseconds fit an Int64, or wrap to the longest, or the limits are one millisecond |
| `SubscriptionTraces.IntervalIsPositiveExactly` | internal/opcua/subscription.go:946-958 | Every revised interval is positive if and only if the configured minimum is at least a millisecond |
| `SubscriptionTraces.LongIntervalIsRevisedToTheShortest` | internal/opcua/subscription.go:808-817 | A request for 10^13 ms wraps and gets the shortest interval |
| `SubscriptionTraces.LifetimeCountExactly` | internal/opcua/subscription.go:833-839 | Every subscription a client can ask for has a lifetime of three keep-alives if and only if three times the configured maximum is a UInt32 |
| `SubscriptionTraces.ShortLifetimeCount` | internal/opcua/subscription.go:833-839 | With 0x5555_5556 keep-alives allowed, a client that asks for as many gets a lifetime of two cycles |
| `SubscriptionTraces.LifetimeKeptExactly` | internal/opcua/subscription.go:955-958 | A subscription is given up once its lifetime is over and not before, for all clock readings, if and only if that lifetime is an Int64 of nanoseconds |
| `SubscriptionTraces.LifetimesKeptExactly` | internal/opcua/subscription.go:946-958 | So is every subscription a client can ask for if and only if the configured maximum interval is at most 2147 ms |
| `SubscriptionTraces.ExpiredAtBirth` | internal/opcua/subscription.go:771-784 | Under the default limits a request for a minute and 300 000 000 cycles makes a subscription already expired |
| `SubscriptionTraces.NewSubIsFresh` | internal/opcua/subscription.go:1063-1096 | A new subscription is fresh, and already expired if and only if its lifetime is not positive |
| `SubscriptionTraces.NewSubAsAsked` | internal/opcua/subscription.go:821-1096 | A new subscription is its session's, with the switch, maximum and priority asked for, as many keep-alives as asked for or the nearest number allowed, and the lifetime asked for if that is three keep-alives, else three where 32 bits hold them |
| `SubscriptionTraces.TraceGrows` | internal/opcua/subscription.go:1121-1682 | Each effect of a call on a subscription is one more event of its run |
| `SubscriptionTraces.LiveSubscriptionsKeepTheirPromises` | internal/opcua/subscription.go:1121-1682 | Every live subscription of the service is where a legal run from its making has led, so the results on pacing, conservation, retransmission and group hold of it |
| `SubscriptionServices.SubscriptionService.ReleaseGroup` | internal/opcua/subscription.go:1388-1396 | Releases the group, if any, once |
| `SubscriptionServices.SubscriptionService.Rebuild` | internal/opcua/subscription.go:1349-1386 | A granted group replaces and unsubscribes the old one; a refusal changes nothing |
| `SubscriptionServices.SubscriptionService.Lookup` | internal/opcua/subscription.go:1105-1112 | A session reaches only its own subscriptions, and a lookup keeps them alive |
| `SubscriptionServices.SubscriptionService.CreateMonitoredItems` | internal/opcua/subscription.go:1121-1196 | Which status each call gets, the whole state and results after an accepted one (those of `CreatedAsAsked`), and exactly which group was granted and which unsubscribed |
| `SubscriptionServices.SubscriptionService.DeleteMonitoredItems` | internal/opcua/subscription.go:1400-1439 | The named items go and the group is rebuilt over the rest, or released when the source refuses; exactly which group was granted and which unsubscribed |
| `SubscriptionServices.SubscriptionService.CreateSubscription` | internal/opcua/subscription.go:1063-1096 | Refused at the limit, otherwise a fresh subscription with parameters revised in Int64 and UInt32 arithmetic, under a new id |
| `SubscriptionServices.SubscriptionService.SetPublishing` | internal/opcua/subscription.go:1481-1487 | Only the flag of the session's own subscription changes |
| `SubscriptionServices.SubscriptionService.SetPublishingMode` | internal/opcua/subscription.go:1472-1496 | Exactly the session's own subscriptions among those named are switched, one result each |
| `SubscriptionServices.SubscriptionService.DeleteSubscriptions` | internal/opcua/subscription.go:1442-1467 | Exactly the session's own subscriptions among those named go, each group unsubscribed; a name repeated fails the second time |
| `SubscriptionServices.SubscriptionService.AcknowledgeEach` | internal/opcua/subscription.go:1549-1576 | Each acknowledgement takes effect on what those before it left queued |
| `SubscriptionServices.SubscriptionService.DeleteSubscription` | internal/opcua/subscription.go:1449-1456 | The subscription goes and its group is unsubscribed |
| `SubscriptionServices.SubscriptionService.ExpireStale` | internal/opcua/subscription.go:1957-1972 | Exactly the subscriptions past their lifetime, as Int64 arithmetic has it, go, and exactly their groups are unsubscribed |
| `SubscriptionServices.SubscriptionService.ReleaseSession` | internal/opcua/subscription.go:1976-1986 | Exactly the session's subscriptions go, and exactly their groups are unsubscribed |
| `SubscriptionServices.SubscriptionService.Collect` | internal/opcua/subscription.go:1701-1754 | A collection, delivered or invalidated (what it reports is in `CollectLeavesNothingDue` and `InvalidationTellsEach`), and the invalidated group unsubscribed |
| `SubscriptionServices.SubscriptionService.BuildMessage` | internal/opcua/subscription.go:1881-1931 | One message is the specified one |
| `SubscriptionServices.SubscriptionService.NextPublishable` | internal/opcua/subscription.go:1687-1698 | The pick of some order of the range: one of the session's subscriptions of highest priority, if it has any |
| `SubscriptionServices.SubscriptionService.TouchAll` | internal/opcua/subscription.go:1649-1653 | Every subscription of the session is kept alive, no other |
| `SubscriptionServices.SubscriptionService.RunCycle` | internal/opcua/subscription.go:1660-1664 | Collect, then build, of one subscription, and its group unsubscribed if that was invalidated |
| `SubscriptionServices.SubscriptionService.TryPublish` | internal/opcua/subscription.go:1640-1682 | One cycle of a highest-priority subscription of the session, and its invalidated group unsubscribed; all others are untouched but for their lifetime |
| `SubscriptionServices.SubscriptionService.AcknowledgeOne` | internal/opcua/subscription.go:1555-1573 | Removes the message from the queue, or says the number is unknown |
| `SubscriptionServices.SubscriptionService.Republish` | internal/opcua/subscription.go:1589-1614 | Returns the stored message and leaves it stored |
| `Wire.LittleEndianRoundTrip` | internal/opcua/binary.go:174-194 | Reading n little-endian bytes undoes writing them |
| `Wire.FromLittleEndianRoundTrip` | internal/opcua/binary.go:369-401 | Writing undoes reading, so no two byte strings mean one number |
| `Wire.CanonIsIdempotent` | internal/opcua/binary.go:201-222 | NaN normalisation is idempotent and keeps NaN-ness |
| `Wire.TicksSince1601` | internal/opcua/datetime.go:46-57 | A time is written as the whole 100 ns since 1601, zero before and the largest Int64 from the last second of 9999 on |
| `Wire.TimeOfTicks` | internal/opcua/datetime.go:63-77 | Any ticks are read as that many 100 ns after 1601, held between the two bounds |
| `Wire.DateTimeRoundTrip` | internal/opcua/datetime.go:46-77 | A time survives up to the two bounds and a tick of 100 ns |
| `Wire.TicksRoundTrip` | internal/opcua/datetime.go:46-77 | Ticks survive decode then encode if and only if they name an instant in range or the maximum |
| `Wire.BlobRoundTrip` | internal/opcua/binary.go:228-258 | A length-prefixed string reads back at any offset |
| `Wire.OptionalTextRoundTrip` | internal/opcua/binary.go:243-249 | An empty optional string travels as null and reads back empty |
| `Wire.ArrayRoundTrip` | internal/opcua/binary.go:513-527 | If elements round-trip and the admission floor is at most the shortest element, every array the writer accepts is read back: the check never refuses it |
| `Wire.ArrayReadExactly` | internal/opcua/binary.go:513-527 | Under any floor the array is read back if and only if the remaining bytes meet it |
| `NodeIds.MaskHas` | internal/opcua/nodeid.go:472-521 | A presence mask has exactly the bits it was made of |
| `NodeIds.GuidRoundTrip` | internal/opcua/binary.go:262-267 | A Guid reads back at any offset |
| `NodeIds.NodeIdFlagsRoundTrip` | internal/opcua/nodeid.go:104-209 | Every NodeId, in whichever compact or full form and with any ExpandedNodeId flags, reads back with them |
| `NodeIds.NodeIdRoundTrip` | internal/opcua/nodeid.go:100-222 | Every NodeId the writer accepts reads back at any offset, consuming exactly its bytes |
| `NodeIds.ExpandedNodeIdRoundTrip` | internal/opcua/nodeid.go:236-280 | Reads back with the namespace index zeroed when a URI is present |
| `NodeIds.QualifiedNameRoundTrip` | internal/opcua/nodeid.go:288-306 | Reads back at any offset |
| `NodeIds.LocalizedTextRoundTrip` | internal/opcua/nodeid.go:321-363 | Reads back through the presence mask |
| `NodeIds.ExtensionObjectRoundTrip` | internal/opcua/nodeid.go:387-425 | Reads back, a body only where the encoding has one |
| `NodeIds.DiagnosticInfoRoundTrip` | internal/opcua/nodeid.go:472-594 | Every DiagnosticInfo the writer accepts, however nested, reads back although mask order and field order differ |
| `NodeIds.NestingExactly` | internal/opcua/nodeid.go:472-521 | The writer takes a DiagnosticInfo if and only if it nests at most ten levels and its texts are within the limit |
| `NodeIds.ReadDiagnosticInfoAt` | internal/opcua/nodeid.go:529-594 | On any bytes: terminates, stays in the buffer and consumes a byte when it succeeds |
| `Layout.NodeIdFormIsShortest` | internal/opcua/nodeid.go:104-209 | Whatever bytes are read as a NodeId, the writer's form of it is no longer |
| `Layout.NumericLayout` | internal/opcua/nodeid.go:104-120 | The three numeric forms, byte by byte, for every namespace and identifier |
| `Layout.FourBytes` | internal/opcua/binary.go:182-186 | A UInt32 byte by byte |
| `Layout.TwoBytes` | internal/opcua/binary.go:174-178 | A UInt16 byte by byte |
| `Layout.GuidLayout` | internal/opcua/binary.go:262-267 | Every Guid byte by byte |
| `Variants.ReadVariant` | internal/opcua/variant.go:337-385 | On any bytes: terminates on the bytes that remain, stays in the buffer, consumes a byte when it succeeds |
| `Variants.SkipBuiltIn` | internal/opcua/variant.go:389-456 | The same, through DataValue and back to Variant |
| `Variants.ReadDataValue` | internal/opcua/variant.go:526-567 | The same |
| `Variants.ValueRoundTrip` | internal/opcua/variant.go:92-140 | Each built-in value written is the one skipBuiltIn reads |
| `Variants.ElementsRoundTrip` | internal/opcua/variant.go:219-270 | The element loop skips exactly what was written |
| `Variants.DimensionsAccepted` | internal/opcua/variant.go:293-332 | The early-stopping product check accepts exactly the shapes that are positive and whose unbounded product is the length |
| `Variants.ScalarVariantRoundTrip` | internal/opcua/variant.go:74-140 | A scalar Variant reads back up to NaN and DateTime normalisation |
| `Variants.ArrayVariantReadExactly` | internal/opcua/variant.go:147-172 | A written array is read if and only if its length is within the limit and its dimensions describe it; otherwise it is refused |
| `Variants.InconsistentDimensionsAreRefused` | internal/opcua/variant.go:293-332 | One Int32 with dimensions 2 by 2 is written and refused |
| `Variants.VariantRoundTrip` | internal/opcua/variant.go:337-385 | Every Variant that can be read reads back at any offset |
| `Variants.DataValueRoundTrip` | internal/opcua/variant.go:485-567 | A DataValue reads back, picoseconds clamped and dropped at the time bounds |
| `BinaryEncoder.WroteThen` | internal/opcua/binary.go:141-156 | Two writes through the sticky error are the write of both, with the error of the first that failed |
| `BinaryEncoder.Encoder.constructor` | internal/opcua/binary.go:122-127 | An empty encoder |
| `BinaryEncoder.Encoder.Bytes` | internal/opcua/binary.go:134-139 | The message, or the first failure |
| `BinaryEncoder.Encoder.Fail` | internal/opcua/binary.go:141-145 | The first failure stands |
| `BinaryEncoder.Encoder.Write` | internal/opcua/binary.go:147-156 | Appends within the message bound, fails with the limit error beyond it, does nothing once failed |
| `BinaryEncoder.Encoder.WriteFloat` | internal/opcua/binary.go:201-207 | The bits, or the quiet NaN |
| `BinaryEncoder.Encoder.WriteDouble` | internal/opcua/binary.go:209-215 | The bits, or the quiet NaN |
| `BinaryEncoder.Encoder.WriteString` | internal/opcua/binary.go:228-235 | Writes exactly the specified string encoding or fails with its error |
| `BinaryEncoder.Encoder.WriteByteString` | internal/opcua/binary.go:251-258 | The same for a ByteString |
| `BinaryEncoder.Encoder.WriteGuid` | internal/opcua/binary.go:262-267 | Writes the four fields |
| `BinaryEncoder.Encoder.WriteArrayLength` | internal/opcua/binary.go:274-284 | Writes the count or fails past the limit |
| `BinaryEncoder.Encoder.WriteNodeIdFlags` | internal/opcua/nodeid.go:104-135 | Writes exactly the specified form, or fails before any byte for an undefined type |
| `BinaryEncoder.Encoder.WriteIdentifier` | internal/opcua/nodeid.go:115-131 | Writes the namespace and identifier of a full form |
| `BinaryEncoder.Encoder.WriteQualifiedName` | internal/opcua/nodeid.go:288-291 | Writes exactly the specified fields |
| `BinaryEncoder.Encoder.WriteLocalizedText` | internal/opcua/nodeid.go:321-336 | Writes the mask and the fields that are there |
| `BinaryEncoder.Encoder.WriteExtensionObject` | internal/opcua/nodeid.go:387-398 | Writes the type and the body its encoding has, or fails after the type |
| `BinaryEncoder.Encoder.WriteValue` | internal/opcua/variant.go:92-140 | The switch over built-in types writes exactly the specified value |
| `BinaryEncoder.Encoder.WriteElements` | internal/opcua/variant.go:219-270 | The loop writes the elements one after another |
| `BinaryEncoder.Encoder.WriteDimensions` | internal/opcua/variant.go:166-171 | The loop writes the dimensions one after another |
| `BinaryEncoder.Encoder.WriteVariantArray` | internal/opcua/variant.go:147-172 | Writes exactly the specified array Variant or fails with its error |
| `BinaryEncoder.Encoder.WriteVariant` | internal/opcua/variant.go:74-90 | Writes exactly the specified Variant or fails with its error |
| `BinaryEncoder.Encoder.WriteStamps` | internal/opcua/variant.go:508-523 | Writes the fields that say something, in order |
| `BinaryEncoder.Encoder.WriteDataValue` | internal/opcua/variant.go:485-524 | Writes exactly the specified DataValue or fails with its error |
| `BinaryDecoder.Decoder.Take` | internal/opcua/binary.go:335-342 | Takes bytes only if they are there |
| `BinaryDecoder.Decoder.TakeUInt32` | internal/opcua/binary.go:382-388 | Reads four little-endian bytes |
| `BinaryDecoder.Decoder.TakeGuid` | internal/opcua/binary.go:481-499 | Reads the four fields |
| `BinaryDecoder.Decoder.ReadLengthField` | internal/opcua/binary.go:435-450 | Null, malformed and over-limit lengths told apart |
| `BinaryDecoder.Decoder.ReadArrayLengthField` | internal/opcua/binary.go:513-527 | Admission by remaining bytes |
| `BinaryDecoder.Decoder.ReadStringField` | internal/opcua/binary.go:455-465 | Reads exactly the specified string |
| `BinaryDecoder.Decoder.ReadByteStringField` | internal/opcua/binary.go:469-479 | Reads exactly the specified ByteString |
| `BinaryDecoder.Decoder.TakeNodeIdFlags` | internal/opcua/nodeid.go:137-209 | Reads the form its low six bits select, and the flags |
| `BinaryDecoder.Decoder.TakeNodeId` | internal/opcua/nodeid.go:213-222 | Reads a NodeId and refuses flags |
| `BinaryDecoder.Decoder.TakeExpandedNodeId` | internal/opcua/nodeid.go:255-280 | Reads the optional URI and server index |
| `BinaryDecoder.Decoder.TakeQualifiedName` | internal/opcua/nodeid.go:293-306 | Reads the two fields |
| `BinaryDecoder.Decoder.TakeLocalizedText` | internal/opcua/nodeid.go:338-363 | Reads what the mask announces |
| `BinaryDecoder.Decoder.TakeExtensionObject` | internal/opcua/nodeid.go:400-425 | Reads the body its encoding has |
| `BinaryDecoder.Decoder.TakeDiagnosticFields` | internal/opcua/nodeid.go:529-580 | Reads what the mask announces, in field order |
| `BinaryDecoder.Decoder.TakeDiagnosticInfo` | internal/opcua/nodeid.go:529-594 | Recurses to the limit and no deeper |
| `BinaryDecoder.Decoder.ReadDimensions` | internal/opcua/variant.go:293-332 | The loop agrees with the unbounded check, its Int64 product never wrapping |
| `BinaryDecoder.Decoder.SkipElements` | internal/opcua/variant.go:358-362 | The loop skips the specified elements |
| `BinaryDecoder.Decoder.TakeNumber` | internal/opcua/variant.go:391-412 | The switch over the fixed-width types |
| `BinaryDecoder.Decoder.TakeStructure` | internal/opcua/variant.go:413-455 | The switch over the other types, unassigned ones as ByteStrings |
| `BinaryDecoder.Decoder.ReadBuiltIn` | internal/opcua/variant.go:389-456 | Agrees with the specified reader |
| `BinaryDecoder.Decoder.TakeStamps` | internal/opcua/variant.go:536-566 | Reads what the mask announces and clamps the picoseconds |
| `BinaryDecoder.Decoder.ReadDataValueField` | internal/opcua/variant.go:526-567 | Agrees with the specified reader |
| `BinaryDecoder.Decoder.ReadVariantField` | internal/opcua/variant.go:337-385 | Agrees with the specified reader and terminates |
| `Messages.ListRoundTrip` | internal/opcua/binary.go:513-527 | A list of elements that round-trip reads back under the floor its reader admits by |
| `Messages.RequestHeaderRoundTrip` | internal/opcua/nodeid.go:617-656 | Reads back up to time and absent body |
| `Messages.ResponseHeaderRoundTrip` | internal/opcua/nodeid.go:658-711 | Reads back with its nullable string table |
| `Messages.ServiceTypeRoundTrip` | internal/opcua/service.go:23-41 | The type identifier a message starts with is recognised |
| `Messages.ViewDescriptionRoundTrip` | internal/opcua/browse.go:121-140 | Reads back |
| `Messages.BrowseDescriptionRoundTrip` | internal/opcua/browse.go:142-180 | Reads back |
| `Messages.BrowseDescriptionsLawful` | internal/opcua/browse.go:288-305 | The floor of 13 is below the shortest description |
| `Messages.BrowseRequestRoundTrip` | internal/opcua/browse.go:266-305 | Every Browse request the writer accepts reads back |
| `Messages.ReadValueIdRoundTrip` | internal/opcua/readwrite.go:78-109 | Reads back |
| `Messages.ReadValueIdsLawful` | internal/opcua/readwrite.go:175-190 | The floor of 12 is below the shortest ReadValueId |
| `Messages.ReadRequestRoundTrip` | internal/opcua/readwrite.go:144-190 | Every Read request reads back |
| `Messages.WriteValueRoundTrip` | internal/opcua/readwrite.go:111-142 | Reads back when its Variant can be read |
| `Messages.WriteValuesLawful` | internal/opcua/readwrite.go:259-274 | The floor of 10 is below the shortest WriteValue |
| `Messages.WriteRequestRoundTrip` | internal/opcua/readwrite.go:243-274 | Every Write request, of scalars and of readable arrays, reads back |
| `Messages.MonitoringParametersRoundTrip` | internal/opcua/subscription.go:376-403 | Reads back |
| `Messages.ItemRequestRoundTrip` | internal/opcua/subscription.go:411-415 | One item to create reads back |
| `Messages.ItemRequestsLawful` | internal/opcua/subscription.go:435-464 | The floor of 30 is below the shortest item |
| `Messages.CreateMonitoredItemsRequestRoundTrip` | internal/opcua/subscription.go:405-464 | Every CreateMonitoredItems request reads back |
| `Messages.AcknowledgementsLawful` | internal/opcua/subscription.go:606-624 | The floor of 8 is exactly an acknowledgement |
| `Messages.PublishRequestRoundTrip` | internal/opcua/subscription.go:589-624 | Every Publish request reads back |
| `Messages.ItemNotificationsLawful` | internal/opcua/subscription.go:691-713 | The floor of 5 is exactly the shortest notification |
| `Messages.ChangesRoundTrip` | internal/opcua/subscription.go:643-713 | The data change nested as an ExtensionObject body reads back from a decoder of its own |
| `Messages.NotificationMessageRoundTrip` | internal/opcua/subscription.go:629-713 | Every NotificationMessage reads back; a keep-alive as no data |
| `Messages.PublishResponseRoundTrip` | internal/opcua/subscription.go:715-748 | Every Publish response reads back, nested body and all |
| `Messages.RepublishResponseRoundTrip` | internal/opcua/subscription.go:995-1011 | Every Republish response reads back |
| `Endpoints.UserTokenPolicyReadExactly` | internal/opcua/endpoints.go:166-207 | One policy is read back if and only if its token type is defined; the writer does not look |
| `Endpoints.PoliciesReadExactly` | internal/opcua/endpoints.go:269-282 | The policies of a description that ends its message are read back if and only if all are of a defined type and their text makes up for the floor of 24 over the real minimum of 20 |
| `Endpoints.ShortPoliciesAreRefused` | internal/opcua/endpoints.go:269-271 | Two policies without text are written and then refused |
| `Acceptance.LengthReadExactly` | internal/opcua/binary.go:435-453 | For all bytes: a length is null if and only if all its bits are set; of the others a negative one is malformed, one past the bound over the limit, and the rest are read |
| `Acceptance.NullList` | internal/opcua/binary.go:513-528 | A null array is read as the empty list, in every format |
| `Acceptance.ListRefused` | internal/opcua/binary.go:513-528 | A list is refused before any element for a count past the limit or more than the remaining bytes can hold, each with its own error |
| `Acceptance.NothingAcknowledged` | internal/opcua/subscription.go:599-626 | The bytes of a Publish request, field by field, with a null array: the header and no acknowledgements |
| `Acceptance.NothingToBrowse` | internal/opcua/browse.go:277-304 | The same for Browse |
| `Acceptance.NothingToRead` | internal/opcua/readwrite.go:155-189 | The same for Read |
| `Acceptance.NothingToWrite` | internal/opcua/readwrite.go:252-273 | The same for Write |
| `Acceptance.NothingToMonitor` | internal/opcua/subscription.go:418-463 | The same for CreateMonitoredItems |
| `Acceptance.NullNotifications` | internal/opcua/subscription.go:663-712 | A notification message may have no list at all, and a response no string table |
| `Acceptance.OtherTypesRefused` | internal/opcua/service.go:23-41 | A message of another type is refused by every one of the readers |
| `Acceptance.BoolReadExactly` | internal/opcua/binary.go:344-351 | Any byte but zero is true |
| `Acceptance.AnyNumericForm` | internal/opcua/nodeid.go:137-233 | A numeric identifier is taken in any of the three forms it fits |
| `Acceptance.NodeIdRefused` | internal/opcua/nodeid.go:137-233 | A plain identifier with flags, or of no form the standard gives, is refused |
| `Acceptance.AnyMaskedText` | internal/opcua/nodeid.go:338-361 | Each field of a localized text is read exactly if its bit is set, whatever the other bits say |
| `Acceptance.AnyObject` | internal/opcua/nodeid.go:400-425 | A body may be null; an encoding nobody assigned is refused |
| `Acceptance.VariantMasks` | internal/opcua/variant.go:337-387 | What each mask means: null, no such type, dimensions without an array, and a null array |
| `Acceptance.UnassignedType` | internal/opcua/variant.go:389-480 | A type from 26 to 31 is read as a ByteString |
| `Acceptance.AnyStamps` | internal/opcua/variant.go:526-586 | A DataValue without a Variant may announce any of its other fields, picoseconds without a time among them; the rest default, and picoseconds stop at 9999 |
| `Writable.NodeWritten` | internal/opcua/nodeid.go:100-135 | An identifier is written if and only if its type is defined and its text within the limit, with any flags |
| `Writable.ObjectWritten` | internal/opcua/nodeid.go:387-398 | An ExtensionObject if and only if its type is, its encoding is assigned and its body, if it has one, is within the limit |
| `Writable.ValueWritten` | internal/opcua/variant.go:92-145 | A scalar if and only if it is of one of the types the adapter writes and its texts are within the limits |
| `Writable.VariantWritten` | internal/opcua/variant.go:74-290 | A Variant if and only if its value is of the declared type, or every element of an array from Boolean to String is |
| `Writable.BrowseRequestWritten` | internal/opcua/browse.go:266-275 | A Browse request if and only if its header, view and descriptions are and these are not too many |
| `Writable.ReadRequestWritten` | internal/opcua/readwrite.go:144-153 | The same for Read |
| `Writable.WriteRequestWritten` | internal/opcua/readwrite.go:243-250 | The same for Write |
| `Writable.CreateMonitoredItemsRequestWritten` | internal/opcua/subscription.go:405-416 | The same for CreateMonitoredItems |
| `Writable.PublishRequestWritten` | internal/opcua/subscription.go:589-597 | The same for Publish |
| `Writable.PublishResponseWritten` | internal/opcua/subscription.go:629-723 | A Publish response if and only if its parts are and the nested body is within the limits of a message and of a ByteString |
| `Writable.RepublishResponseWritten` | internal/opcua/subscription.go:995-999 | The same for Republish |
| `ReferenceBytes.EightIs` | internal/opcua/binary.go:190-194 | A UInt64 as two halves, the lower first, each byte by byte |
| `ReferenceBytes.NodeIs` | internal/opcua/nodeid.go:100-135 | Whatever identifier is written, its bytes: the compact form where it fits, else the type and the flags, the namespace and the identifier |
| `ReferenceBytes.ExpandedIs` | internal/opcua/nodeid.go:236-253 | Namespace zero where a URI follows, then the server index |
| `ReferenceBytes.ObjectIs` | internal/opcua/nodeid.go:387-398 | The type, the encoding, and a body with its length unless there is none |
| `ReferenceBytes.DiagnosticIs` | internal/opcua/nodeid.go:468-523 | At any depth: the mask bits in the order of the standard, the fields with the locale before the text |
| `ReferenceBytes.ValueIs` | internal/opcua/variant.go:92-145 | The bytes of every built-in value; every NaN as the quiet one |
| `ReferenceBytes.VariantIs` | internal/opcua/variant.go:74-290 | The mask, the length, the elements and the dimensions of every Variant written |
| `ReferenceBytes.DataValueIs` | internal/opcua/variant.go:485-524 | The mask and the fields of every DataValue written, each time followed by its picoseconds |
| `ReferenceBytes.RequestHeaderIs` | internal/opcua/nodeid.go:617-625 | The fields of a request header, in order |
| `ReferenceBytes.ResponseHeaderIs` | internal/opcua/nodeid.go:658-672 | The fields of a response header, in order |
| `ReferenceBytes.BrowseRequestIs` | internal/opcua/browse.go:266-275 | Every byte of a Browse request written, from its type 527 on |
| `ReferenceBytes.ReadRequestIs` | internal/opcua/readwrite.go:144-153 | Every byte of a Read request, type 631 |
| `ReferenceBytes.WriteRequestIs` | internal/opcua/readwrite.go:243-250 | Every byte of a Write request, type 673 |
| `ReferenceBytes.CreateMonitoredItemsRequestIs` | internal/opcua/subscription.go:405-416 | Every byte of a CreateMonitoredItems request, type 751 |
| `ReferenceBytes.PublishRequestIs` | internal/opcua/subscription.go:589-597 | Every byte of a Publish request, type 826 |
| `ReferenceBytes.NotificationMessageIs` | internal/opcua/subscription.go:629-661 | Every byte of a notification message, the data change of type 811 nested in it as a ByteString |
| `ReferenceBytes.PublishResponseIs` | internal/opcua/subscription.go:715-723 | Every byte of a Publish response, type 829 |
| `ReferenceBytes.RepublishResponseIs` | internal/opcua/subscription.go:995-999 | Every byte of a Republish response, type 835 |
| `Coalescing.FirstSeenAppend` | internal/opcda/subscribe.go:165-170 | A merged pair extends the order exactly when its handle is new |
| `Coalescing.PutAllRepresents` | internal/opcda/subscribe.go:155-171 | Merging a batch appends it to the log the set stands for |
| `Coalescing.OrderIsLatest` | internal/opcda/subscribe.go:181-194 | Order and map agree, and draining them gives each handle once, first seen first, with its last value |
| `Coalescing.FreshRefines` | internal/opcda/subscribe.go:142-149 | A new set stands for the empty log |
| `Coalescing.CoalescingRefinement` | internal/opcda/subscribe.go:155-210 | In every run each operation returns what the log since the last drain says, and the set is left with that log, the reason of the first invalidation, and a token once something was merged |
| `Coalescing.InvalidationIsFinal` | internal/opcda/subscribe.go:198-210 | After invalidation nothing is delivered, merges do nothing, and done was closed exactly once |
| `Coalescing.PendingUpdates.MergeBatch` | internal/opcda/subscribe.go:155-179 | The loop merges the batch, unless closed or empty, and leaves the token |
| `Coalescing.PendingUpdates.DrainAll` | internal/opcda/subscribe.go:181-194 | Returns and clears the pending set |
| `Coalescing.PendingUpdates.Close` | internal/opcda/subscribe.go:198-210 | Closes once and drops what is pending |
| `Coalescing.Validate` | internal/opcda/subscribe.go:94-129 | Accepts exactly the acceptable requests; a NaN deadband passes |
| `Coalescing.DeadbandsThatPass` | internal/opcda/subscribe.go:125-127 | A deadband passes if and only if it is from 0 to 100 or NaN |
| `Wakeup.StepKeeps` | internal/opcda/subscribe.go:155-210 | Each step of each goroutine keeps the three invariants |
| `Wakeup.EveryInterleaving` | internal/opcda/subscribe.go:155-210 | In every interleaving a pending set has a token, a merger about to send one or a consumer about to drain; done is closed at most once; every accepted pair is drained once in order, pending or dropped by the invalidation |
| `Wakeup.PendingIsDelivered` | internal/frontend/grpc/subscribe.go:65-88 | At most three steps of goroutines already under way deliver the whole pending set |
| `Wakeup.DoneIsClosedExactlyOnce` | internal/opcda/subscribe.go:198-210 | Once no invalidator is on its way, done is closed exactly if the set is |
| `SafeArrays.DigitsOfRank` | internal/opcda/safearray_windows.go:53-77 | Every index vector in bounds is the digits of its rank, the last dimension fastest |
| `SafeArrays.RankOfDigits` | internal/opcda/safearray_windows.go:53-77 | The digits of k are in bounds and have rank k |
| `SafeArrays.AdvanceInPlace` | internal/opcda/safearray_windows.go:80-88 | The in-place step, in wrapping Int32 arithmetic, is the specified step |
| `SafeArrays.IterateLast` | internal/opcda/safearray_windows.go:80-88 | A dimension ending below 2^31-1 turns over properly whatever precedes it |
| `SafeArrays.OverrunLeavesTheArray` | internal/opcda/safearray_windows.go:80-88 | At 2^31-1 the increment wraps to an index below the array |
| `SafeArrays.OdometerExactly` | internal/opcda/safearray_windows.go:80-88 | The steps visit the published order if and only if no dimension ending at 2^31-1 follows one with more than one element |
| `SafeArrays.OdometerWraps` | internal/opcda/safearray_windows.go:80-88 | With upper bounds below 2^31-1 the steps end back at the lower bounds |
| `SafeArrays.VisitedExactlyOnce` | internal/opcda/safearray_windows.go:53-77 | Each index vector is reached at one step and no other |
| `SafeArrays.VisitedAtLower` | internal/opcda/safearray_windows.go:80-88 | A dimension with an upper bound past an Int32 never moves from its lower bound |
| `SafeArrays.Encode` | internal/opcda/safearray_windows.go:190-220 | Of a shape COM can describe: succeeds exactly when the odometer stays inside, and then holds each element at the vector of its rank; of any other: fails or leaves an element unset |
| `SafeArrays.SafeArrayDimensions` | internal/opcda/safearray_windows.go:90-127 | The shape as COM reports it, refused exactly outside the limits, when COM cannot describe it or when a dimension is empty, but for one at the lowest Int32 under a limit of 2^32 |
| `SafeArrays.Decode` | internal/opcda/safearray_windows.go:30-77 | Where the product does not wrap: reads the elements by rank if and only if the shape is within the limits, COM can describe it, and the odometer stays inside |
| `SafeArrays.ReadElements` | internal/opcda/safearray_windows.go:52-76 | The element loop |
| `SafeArrays.EncodeThenDecode` | internal/opcda/safearray_windows.go:190-220 | For every array that meets its shape and the limits, decode(encode(a)) is a if and only if COM can describe the shape and no dimension ending at 2^31-1 follows one with more than one element |
| `SafeArrays.OverrunExample` | internal/opcda/safearray_windows.go:80-88 | Two dimensions for which the enumeration fails |
| `SafeArrays.ElementCount` | internal/opcda/array.go:68-86 | The loop computes the bounded product, in wrapping 64-bit arithmetic |
| `SafeArrays.CheckedIsCount` | internal/opcda/array.go:68-86 | It finds every count within its bound, and up to 2^32+1 nothing else |
| `SafeArrays.CountedExactly` | internal/opcda/array.go:68-86 | It counts every shape correctly if and only if the bound is at most 2^32+1 |
| `SafeArrays.MiscountedShape` | internal/opcda/array.go:68-86 | A shape miscounted under every larger bound |
| `SafeArrays.MatchesItsShape` | internal/opcda/array.go:93-116 | The same product, bounded by and compared with the elements carried |
| `SafeArrays.MatchingShapes` | internal/opcda/array.go:93-116 | A shape that describes the elements matches them, and up to 2^32+1 elements no other does |
| `SafeArrays.MismatchedShape` | internal/opcda/array.go:93-116 | A shape that matches 2^33-4 elements it does not describe |
| `SequenceNumbers.SequenceValidator.Accept` | internal/opcua/uasc.go:314-345 | Accepts by the selected rule and moves only on acceptance |
| `SequenceNumbers.SequenceValidator.Next` | internal/opcua/uasc.go:348-372 | Produces the next number by the selected rule |
| `SequenceNumbers.StreamIsAccepted` | internal/opcua/uasc.go:314-372 | A receiver in step with a sender accepts everything it will ever produce, across wraps, under both rules |
| `SequenceNumbers.StreamCounts` | internal/opcua/uasc.go:348-372 | The k-th number a new sender produces: k modulo 2^32 under the zero-based rule, k+1 modulo 2^32-1023 under the legacy one |
| `SequenceNumbers.FirstAccepted` | internal/opcua/uasc.go:314-323 | A fresh receiver takes any number under the legacy rule, only zero under the other |
| `SequenceNumbers.FollowsExactly` | internal/opcua/uasc.go:324-345 | Which number may follow which, under each rule |
| `SequenceNumbers.AcceptedIsChain` | internal/opcua/uasc.go:314-334 | Whatever is offered, what is accepted is a chain of followers |
| `SequenceNumbers.Drift` | internal/opcua/uasc.go:336-345 | Each wrap costs a whole period of the distance covered |
| `SequenceNumbers.NoEarlyRepeat` | internal/opcua/uasc.go:314-345 | No number is accepted again within fewer than 2^32-2046 acceptances (legacy) or 2^32 (zero-based) |
| `SequenceNumbers.ZeroBasedCounts` | internal/opcua/uasc.go:314-345 | Under the zero-based rule the k-th number accepted is k modulo 2^32 |
| `SequenceNumbers.LegacyPeriodIsTight` | internal/opcua/uasc.go:336-345 | The legacy bound is reached |
| `Continuations.PagesCoverTheList` | internal/opcua/browse.go:627-638 | Pages joined are the list, all but the last are full |
| `Continuations.PageOfRest` | internal/opcua/browse.go:840-879 | The n-th page is the front of what was left, the last exactly when that fits |
| `Continuations.LivePointsLoseNothing` | internal/opcua/browse.go:840-879 | In every reachable state, what a live point delivered and what it holds are its whole list |
| `Continuations.DeadStaysDead` | internal/opcua/browse.go:855-857 | No call brings back a point that is gone |
| `Continuations.SpentForever` | internal/opcua/browse.go:855-857 | Over any run of calls by any sessions, a point once spent, evicted or released is never live, and so never accepted, again |
| `Continuations.PointSurvives` | internal/opcua/browse.go:528-548 | A point one step of a Browse stored is live at its end, whatever calls of other sessions come between its steps, until it expires |
| `Continuations.AddingKeepsGood` | internal/opcua/browse.go:758-762 | A stored point keeps every session within its budget |
| `Continuations.DroppingKeepsGood` | internal/opcua/browse.go:768-802 | Dropping points keeps the invariant |
| `Continuations.UsePoint` | internal/opcua/browse.go:840-879 | Taking a point yields its next page and leaves room for its successor |
| `Continuations.BrowseService.constructor` | internal/opcua/browse.go:492-497 | No points |
| `Continuations.BrowseService.ExpireLocked` | internal/opcua/browse.go:796-802 | Exactly the expired points go |
| `Continuations.BrowseService.Scan` | internal/opcua/browse.go:769-783 | Counts the session's points and finds its oldest from a prior request |
| `Continuations.BrowseService.FreeOldestLocked` | internal/opcua/browse.go:768-794 | Terminates; evicts only the session's oldest prior points and no more than needed; fails only when no point it holds is older than this request |
| `Continuations.BrowseService.StoreContinuation` | internal/opcua/browse.go:732-763 | Stores the rest under a fresh identifier, or refuses for the stated reason, touching no other session |
| `Continuations.BrowseService.BrowseNode` | internal/opcua/browse.go:627-638 | The first page, with a point exactly when more remains |
| `Continuations.BrowseService.Browse` | internal/opcua/browse.go:506-548 | Nothing to do, too many nodes or an unknown view; else one result per node, in order, no page longer than server or client allow and full where a point follows, and every point returned is live on return and holds what was left out |
| `Continuations.BrowseService.ContinueBrowse` | internal/opcua/browse.go:840-879 | A point of the session not past its expiry yields exactly the next page of the original Browse and is spent, with a new one exactly when more remains; any other is invalid |
| `Continuations.BrowseService.ReleasePoints` | internal/opcua/browse.go:821-831 | Releases exactly the named points of the session |
| `Continuations.BrowseService.ReleaseSession` | internal/opcua/browse.go:892-903 | Drops exactly the session's points and counts them |
| `Sessions.StepKeeps` | internal/opcua/session.go:665-1027 | Every operation keeps the registry's invariant |
| `Sessions.RunKeeps` | internal/opcua/session.go:665-1027 | Every run keeps it |
| `Sessions.OnlyTheBoundChannelIsServed` | internal/opcua/session.go:707-761 | In every run a request passes if and only if its session is live, has a request outstanding or was used less than its timeout ago, and it arrives on the channel of the last successful activation, or the creating one before that |
| `Sessions.FirstActivationIsPinned` | internal/opcua/session.go:808-817 | The first activation succeeds only on the creating channel |
| `Sessions.MovesKeepSecurity` | internal/opcua/session.go:818-846 | A move keeps the security mode and policy of creation |
| `Sessions.BusySessionsDoNotTimeOut` | internal/opcua/session.go:523-531 | A session with a request outstanding is ended by no timeout |
| `Sessions.EveryEndIsReportedOnce` | internal/opcua/session.go:940-963 | Each session that left was ended once and its hook run, or owed, once; a live one neither |
| `Sessions.TerminateKeeps` | internal/opcua/session.go:940-948 | Termination keeps the invariant |
| `SessionHistory.LookupExactly` | internal/opcua/session.go:707-761 | In every run, from nothing but the calls made before and their answers: a lookup or close finds a session if and only if it was created and has not ended, some request of it is outstanding or its last creation, successful lookup, activation or answered request is less than the revised timeout ago, and it comes on the channel of the last activation, or of creation before one; and which of the three refusals it gets otherwise |
| `SessionHistory.ActivateExactly` | internal/opcua/session.go:765-846 | In every run an activation succeeds if and only if the identity is accepted, a nonce was drawn, the session lasts and is not idle, and it is the first and on the creating channel, or on the channel of the last, or on another under the mode and policy of creation unless that channel signs only and only anonymous users are served; and which refusal it gets otherwise |
| `SessionHistory.CreateExactly` | internal/opcua/session.go:652-703 | In every run a session is created if and only if the nonce has 32 to 128 bytes, or is absent on a channel without security where only anonymous users are served, a token was drawn, and fewer sessions last than are allowed; and which refusal it gets otherwise |
| `SessionHistory.SweepExactly` | internal/opcua/session.go:907-922 | In every run the sweep ends exactly the sessions without an outstanding request whose last use is their timeout ago |
| `SessionHistory.StepAgrees` | internal/opcua/session.go:665-1027 | After every operation what the registry keeps about a token is what the calls and answers so far say about it |
| `SessionHistory.SessionIdsAreDistinct` | internal/opcua/session.go:686-702 | In every run no two sessions ever issued share an identifier |
| `SessionHistory.IdentityExactly` | internal/opcua/session.go:851-885 | An identity is accepted if and only if its token has no body and is null or anonymous, or is anonymous with a body within the limit whose bytes name the published policy, null meaning the empty name; it is rejected if and only if they name another |
| `Sessions.TimeoutRevisedExactly` | internal/opcua/session.go:462-471 | Every requested timeout is clamped between the limits if and only if its nanoseconds fit an Int64, or wrap to the longest, or the limits are one millisecond |
| `Sessions.LongTimeoutIsRevisedToTheShortest` | internal/opcua/session.go:462-471 | A request for 10^13 ms wraps and gets the shortest timeout |
| `Sessions.TimeoutIsPositiveExactly` | internal/opcua/session.go:462-471 | Every revised timeout is positive if and only if the configured minimum is at least a millisecond |
| `Sessions.SessionRegistry.CreateSession` | internal/opcua/session.go:665-703 | Refused for a bad nonce, a failed random read or at the limit, else a new session with a revised timeout bound to its channel |
| `Sessions.SessionRegistry.EndSession` | internal/opcua/session.go:940-963 | Removed, ended and reported |
| `Sessions.SessionRegistry.Find` | internal/opcua/session.go:726-761 | Unknown, expired (and so ended), on the wrong channel, or found |
| `Sessions.SessionRegistry.LookupSession` | internal/opcua/session.go:707-721 | The specified lookup, which restarts the idle clock |
| `Sessions.SessionRegistry.ActivateSession` | internal/opcua/session.go:765-804 | The specified activation: identity token, server nonce, session, then binding |
| `Sessions.SessionRegistry.CloseSession` | internal/opcua/session.go:888-904 | The specified close |
| `Sessions.SessionRegistry.Expire` | internal/opcua/session.go:907-922 | Ends and reports exactly the stale sessions |
| `Sessions.SessionRegistry.BeginRequest` | internal/opcua/session.go:1006-1013 | Counts the request in |
| `Sessions.SessionRegistry.EndRequest` | internal/opcua/session.go:1014-1026 | Counts it out once and restarts the idle clock |
| `Channels.LifetimeIsPositiveExactly` | internal/opcua/channel.go:100-109 | Every revised lifetime is positive if and only if the configured minimum is at least a millisecond |
| `Channels.ExpiredExactly` | internal/opcua/channel.go:162-193 | An open channel is expired exactly when it would accept no token, unless a live token is shadowed by an expired one of the same identifier |
| `Channels.TokenIdsComeRound` | internal/opcua/channel.go:266-272 | A token identifier comes round after exactly 2^32-1 tokens |
| `Channels.ShadowedChannel` | internal/opcua/channel.go:143-193 | A channel renewed after forty days under its own identifier that accepts nothing and is not expired |
| `Channels.TokensNeverGoBack` | internal/opcua/channel.go:143-184 | In every run the tokens accepted on a channel are in issue order |
| `Channels.AcceptedTokensAreLive` | internal/opcua/channel.go:162-184 | A token is accepted if and only if the channel is open and holds it, current or superseded under another identifier, and it was made less than its lifetime ago |
| `Channels.RenewalOverlaps` | internal/opcua/channel.go:143-184 | After a renewal both tokens are accepted, each as long as it lasts; use of the old one changes nothing, and from the first use of the new one on the old one is refused |
| `Channels.RefusalKeepsTheRest` | internal/opcua/channel.go:162-184 | What is refused changes nothing, except that finding the superseded token out of time drops it |
| `Channels.LifetimeRevised` | internal/opcua/channel.go:100-109 | A requested lifetime is kept within the limits, and is the nearer limit, in whole milliseconds, outside them |
| `Channels.FreeIdExactly` | internal/opcua/channel.go:254-264 | A non-zero identifier is free, so the search ends, if and only if fewer than 2^32-1 are taken |
| `Channels.ChannelRegistry.constructor` | internal/opcua/channel.go:239-250 | An empty registry |
| `Channels.ChannelRegistry.AllocateChannelId` | internal/opcua/channel.go:254-264 | Terminates, across the wrap, with the next unused non-zero identifier whenever one exists |
| `Channels.ChannelRegistry.AllocateTokenId` | internal/opcua/channel.go:266-272 | The next token identifier, never zero |
| `Channels.ChannelRegistry.Issue` | internal/opcua/channel.go:276-299 | Refused exactly for a mode that is not provided or at the limit, else one new channel |
| `Channels.ChannelRegistry.RenewChannel` | internal/opcua/channel.go:302-310 | The channel gets a new token above its last while the counter has not wrapped |
| `Channels.ChannelRegistry.Accept` | internal/opcua/channel.go:339-350 | Accepts by the channel's tokens and retires as it says |
| `Channels.ChannelRegistry.Close` | internal/opcua/channel.go:353-363 | The channel goes |
| `Channels.ChannelRegistry.ExpireStale` | internal/opcua/channel.go:367-379 | Exactly the expired channels go, and are counted |
| `Registrations.UncachedIs` | internal/opcda/da_windows.go:236-247 | The items to ask for: each uncached one once |
| `Registrations.EnteredFits` | internal/opcda/da_windows.go:346-349 | There is room for every item asked: no put is refused |
| `Registrations.EnteredIs` | internal/opcda/da_windows.go:324-351 | Each item asked whose answer did not fail is entered with the server handle, type and access rights of its answer, at the current generation; one whose answer failed is not |
| `Registrations.RegistrationCache.Get` | internal/opcda/registration.go:25-31 | The cached registration of the current generation |
| `Registrations.RegistrationCache.Put` | internal/opcda/registration.go:33-42 | Refused exactly for another generation or a full cache |
| `Registrations.RegistrationCache.Remaining` | internal/opcda/registration.go:44-50 | The room left |
| `Registrations.RegistrationCache.Reset` | internal/opcda/registration.go:52-55 | Empty, at the new generation |
| `Registrations.RegistrationCache.AddItems` | internal/opcda/da_windows.go:324-352 | One attempt per answer, with its HRESULT and, unless it failed, the registration it gives; the successful ones entered |
| `Registrations.Gather` | internal/opcda/da_windows.go:236-247 | What is cached is settled, the rest grouped by item |
| `Registrations.Refuse` | internal/opcda/da_windows.go:250-258 | The limit code for every slot of an item there is no room for |
| `Registrations.Distribute` | internal/opcda/da_windows.go:267-278 | Each attempt goes to every slot of its item |
| `Registrations.Resolve` | internal/opcda/da_windows.go:229-280 | Of the uncached items the first named are asked, each once, in order, as many as there is room for; each slot of an asked item carries what the source answered for it: the HRESULT and, unless that failed, its server handle, type and access rights under the item and generation; a cached item its cached registration; the rest the limit code; the cache gains exactly what was answered, stays bounded and of one generation |

## Left out

- Sockets, tickers, deadlines, configuration, the Windows service, COM calls and
  memory, HTTP, gRPC and MCP encodings: plumbing without a property of this kind.
- Tables of quality, HRESULT, VARTYPE and status codes, and small clamps.
- The address space and its population, browse filters and result masks: what a
  node's references match, and the semantic generation of an item, are inputs.
- The status transitions of the DA runtime, and what a group is asked for besides its
  ItemIDs: the rate and the deadband.
- A subscription is a value written back to the service's table; the source shares
  it by reference and filters `heldOrder` in its own backing array. Aliasing is not
  captured.
- Messages are written and read by functions on values; the Encoder and Decoder
  objects cover everything inside them. The bound on a whole message is the
  Encoder's.
- BrowseNext is modelled point by point, without its size check and header.
- Read and Write responses, Browse responses, the session messages and
  EndpointDescription beyond its token policies: more messages of the same kind.
- SafeArrays.Encode: element conversion, string limits and VARTYPE checks of
  Validate are not modelled, and SafeArrayCreate is taken to succeed.
- SafeArrays.Decode: what is read under a limit above 2^32+1 when the product of the
  dimensions wraps is not stated; `CountedExactly` says when that is.
- Channels.ChannelRegistry.Issue: the state in which every identifier is taken and
  the limit not reached, where the source searches for ever, is excluded.
- Sessions.SessionRegistry.EndSession: the end hook is taken to be registered.
- Variants.EncVariant: an empty slice matches every element type, and a byte slice
  is a ByteString or an array of Byte as its Variant says.
