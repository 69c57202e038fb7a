# heartbeats: verified model

A Dafny model of the parts of the heartbeats server that carry state over time, and proofs of
what every run of them keeps. The server speaks GT06 with motorcycle trackers, keeps an
odometer for each of them, sells subscriptions through Midtrans and talks to riders on
Telegram.

`dafny verify dfyconfig.toml` checks everything.

## What is modelled

**The stream decoder and the connection** (`Bytes`, `Crc16`, `Protocol`, `FrameStream`,
`Messages`, `Connection`, `DeviceReports`). `Protocol.BytesMut` is the receive buffer, a mutable object;
`NextFrame` looks at its front and answers with a frame, a request for more bytes, or an error
after dropping one byte or skipping to the next start marker. `Inspect` and `Next` are the
same step as a function of the buffer. The checksum is the 16-bit FCS of appendix C.2 of
RFC 1662 (polynomial 0x8408, initial value 0xFFFF, complemented), sent high byte first;
`Crc16` proves that the bit loop is the RFC's table step, that a correct trailer leaves the
register at 0xF0B8 and only then, and that every burst error of at most sixteen bits changes
the checksum. `FrameStream` compares the drain loop with an independent definition of the
leftmost well-formed frames of a stream. `Connection` is the read loop with its
acknowledgements and events, and `DeviceReports` says what of a device's frames arrives there.

**Subscriptions and payments** (`WibTime`, `Subscriptions`, `Billing`, `BillingRuns`,
`BillingSchedule`, `Payments`, `ShipmentFees`).
`Subscriptions` has the reminder decision, the merge of the sanction row and the lifecycle
view of one subscription, and proves the reminder schedule of a period. `Billing.BillingStore`
holds the three tables and the operations that change them; `BillingRuns` interleaves payment
requests, webhooks and maintenance runs and proves that paid time is conserved, that access
equals paid time, and that each user's share of any run is a life of that user's subscription
alone. `BillingSchedule` derives that the schedule holds in the whole system and when a
subscription is past due; `Payments` says what a link asks, what pays it and what settles
nothing; `ShipmentFees` says when the shipment fee can be charged twice.

**The odometer and its readers** (`ServiceDistance`, `DistanceSegments`, `DistanceRuns`,
`ServiceMilestones`, `FuelCalibration`, `RideRoute`). Distances are exact reals and the haversine formula is an arbitrary distance
function; the metric laws are assumed only for the route length. The incremental fold with a
checkpoint is compared with a full replay and with the daily table; `DistanceRuns` says exactly
which arrival orders a backfill does not disturb.

**Engine sessions** (`EngineSessions`, `EngineSessionRuns`, `EngineSessionResults`). One device in one chat: heartbeats,
the notification cursor, the notification row, the sessions. Every Telegram call is answered
by an arbitrary function of its number, so each proof holds for every pattern of failures.

Times are integers, in microseconds; the WIB date is floor((t + 7 h) / 1 day). A mutable
object stands for the tables; each of its methods is proved equal to a function on the values
of the tables, and the functions carry the theorems about runs.

## Model

| member | source | states |
|---|---|---|
| Crc16.Crc16X25 | src/protocol.rs:203-218 | the nested loops compute the FCS register of all bytes, complemented; the partner of every theorem about `Checksum` |
| Crc16.ChecksumIsRegister | src/protocol.rs:203-218 | read front first or built up byte by byte, the checksum is the complement of the register |
| Crc16.TableStep | src/protocol.rs:203-218 | eight bit steps on a byte equal the table-driven step of RFC 1662: shift the register by a byte and exclusive-or the table entry |
| Crc16.RegisterConcat | src/protocol.rs:203-218 | the checksum register of a concatenation is the register of the second part started from the first |
| Crc16.RegisterInjective | src/protocol.rs:203-218 | over equal data, different registers stay different |
| Crc16.UpdateLinear | src/protocol.rs:203-218 | the difference of two runs evolves on its own: the register step is linear over exclusive or |
| Crc16.BurstLeavesResidue | src/protocol.rs:203-218 | no burst of at most sixteen bits, at any bit offset, cancels itself out |
| Crc16.AdjacentBytesAreBurst | src/protocol.rs:203-218 | changing one byte or two adjacent bytes is such a burst |
| Crc16.DetectsBursts | src/protocol.rs:203-218 | any two messages that differ by a burst of at most sixteen bits have different checksums, whatever surrounds it and however long they are |
| Crc16.GoodFcs | src/protocol.rs:203-218 | a message with two trailing bytes leaves 0xF0B8 in the register if and only if those bytes are its checksum |
| Crc16.CheckValue | src/protocol.rs:203-218 | the nine digits have the published check value 0x906E |
| Protocol.BytesMut.constructor | src/server.rs:64-65 | the receive buffer starts empty |
| Protocol.BytesMut.Extend | src/server.rs:67-72 | a read appends its bytes behind those kept |
| Protocol.BytesMut.Advance | src/protocol.rs:121-172 | dropping a prefix keeps exactly the rest |
| Protocol.BytesMut.SplitTo | src/protocol.rs:159-172 | splitting off a prefix returns it and keeps exactly the rest |
| Protocol.NextFrame | src/protocol.rs:120-174 | the in-place decoder, with its loop, branches and drops, answers and leaves the buffer as the step function on values does |
| Protocol.BuildFrame | src/protocol.rs:462-472 | the encoder emits start, length, protocol, payload, serial, checksum high byte first, and stop bytes of the frame |
| Protocol.EncodeAck | src/protocol.rs:190-201 | an acknowledgement is the encoding of the frame with an empty payload |
| Protocol.EncodedIsGood | src/protocol.rs:120-174 | whatever follows it, the encoding of a frame with at most 250 payload bytes is accepted as that frame and takes exactly its own bytes |
| Protocol.GoodIsEncoded | src/protocol.rs:120-174 | whatever the decoder accepts is byte for byte the encoding of the frame it returns |
| Protocol.GoodIffEncoded | src/protocol.rs:120-174 | a buffer is accepted as a frame if and only if it begins with that frame's encoding and the payload has at most 250 bytes |
| Protocol.InspectStable | src/protocol.rs:121-172 | once a decision about the front of a buffer is made, more bytes behind it do not change it |
| Protocol.IncompleteIsShort | src/protocol.rs:121-172 | a buffer whose front is undecided is shorter than the longest frame |
| Protocol.CorruptionIsDetected | src/protocol.rs:151-157 | a burst of at most sixteen bits in the protocol, payload or serial bytes of any encoded frame is answered with a checksum mismatch, and the decoder moves on by one byte |
| Protocol.AdjacentCorruptionIsDetected | src/protocol.rs:151-157 | in particular, changing one byte or two adjacent bytes there |
| Protocol.EncodeLayout | src/protocol.rs:462-472 | the frame byte by byte: 78 78, length, protocol, payload, serial and checksum high byte first, 0D 0A |
| Protocol.AnswersAtStart | src/protocol.rs:131-172 | at a start marker: which error a short length, wrong stop bytes and a wrong checksum give, when the decoder waits, and what it drops or splits off |
| Protocol.AnswersElsewhere | src/protocol.rs:121-134 | elsewhere it drops bytes until a start marker or until fewer than two are left |
| FrameStream.DrainStep | src/server.rs:74-137 | one decoding step unrolls the drain of a buffer: a byte or a frame at a time |
| FrameStream.DrainAppend | src/server.rs:74-137 | draining a stream in two portions, keeping what the first left over, is draining it at once |
| FrameStream.DrainLeavesShortSuffix | src/server.rs:74-137 | the drain loop ends and leaves a suffix of its input shorter than 260 bytes |
| FrameStream.DrainIsLeftmostParse | src/protocol.rs:121-172 | the frames it returns are the leftmost non-overlapping well-formed frames of the bytes it consumed |
| FrameStream.EveryFrameStartIsCovered | src/protocol.rs:121-172 | every place where a well-formed frame starts is the start of a returned frame or lies inside one |
| FrameStream.LeftmostParseIsUnique | src/protocol.rs:121-172 | there is only one leftmost parse of a stretch of the stream, so the two lemmas above fix the answer |
| FrameStream.FramesRoundTrip | src/protocol.rs:462-472 | any frames with payloads of at most 250 bytes, encoded with any bytes but 0x78 before, between and after them, come back exactly, without errors |
| FrameStream.RoundTripIffShort | src/protocol.rs:462-472 | the round trip of a frame holds if and only if its payload has at most 250 bytes, the limit of the length byte |
| Messages.DecodeBcdImei | src/protocol.rs:384-396 | the loop over nibbles returns the two digits of each byte and drops the leading zero of sixteen digits |
| Messages.PackedDigitsReadBack | src/protocol.rs:384-396 | packing any even number of digits into bytes and decoding them gives the digits back |
| Messages.ImeiRoundTrip | src/protocol.rs:384-396 | every fifteen-digit IMEI is read back from the eight bytes of a login |
| Connection.HandleConnection | src/server.rs:57-139 | the two nested loops do what feeding the reads one after another does, until the peer closes, a read fails or an acknowledgement cannot be written; then the effects are those of the undisturbed connection up to that acknowledgement, and the outcome says which it was |
| Connection.HandleFrame | src/server.rs:74-137 | the reaction to one frame: acknowledge, remember the login, emit the event or log; if the acknowledgement cannot be written, nothing at all |
| Connection.ReactionWritable | src/server.rs:77-114 | a reaction passes as a whole or is cut before its acknowledgement, never between it and its event |
| Connection.CutIsExact | src/server.rs:77-114 | every acknowledgement before the cut was written, and the cut is at the first that was not |
| Connection.FeedTwice | src/server.rs:67-138 | two reads in a row are one read of their concatenation |
| Connection.ChunksAreOneRead | src/server.rs:67-138 | any number of reads are one read of the whole stream |
| Connection.SegmentationIndependence | src/server.rs:67-138 | the acknowledgements, events and logged errors, the remembered IMEI and the leftover depend on the byte stream alone, not on how it is cut |
| Connection.KeepsLessThanOneFrame | src/server.rs:67-138 | between reads a connection never keeps as much as one longest frame |
| Connection.EventsCarryLatestLogin | src/server.rs:57-139 | every event of every connection carries the IMEI of the latest earlier login, or none before the first |
| Connection.AcksReadBack | src/server.rs:74-137 | the acknowledgements a connection sent, read by the same decoder, are empty frames with the protocol and serial of the frames acknowledged |
| DeviceReports.ConnectionReportsEveryItem | src/server.rs:57-139 | however the stream is cut, every decoded item causes exactly its report, once and in order: a login with IMEI and serial, a heartbeat and a location with their packets, an unknown frame, an error |
| DeviceReports.DeviceIsHeard | src/server.rs:57-139 | any frames a device sends, with any bytes but 0x78 around them, cause exactly their reports |
| DeviceReports.ConnectionAcknowledgesFirst | src/server.rs:77-110 | logins and heartbeats, and nothing else, stand directly behind an acknowledgement |
| DeviceReports.ShortOrUnknown | src/protocol.rs:177-188 | exactly which payloads are refused for being short, and which protocol numbers are unknown |
| DeviceReports.LoginReadBack | src/protocol.rs:220-232 | every IMEI and extra data put into a login is read back |
| DeviceReports.HeartbeatReadBack | src/protocol.rs:291-305 | every heartbeat field is read back |
| DeviceReports.LocationReadBack | src/protocol.rs:307-445 | every time, satellite count, angle, hemisphere, speed and course put into a location frame is read back |
| DeviceReports.ExtendedLocationReadBack | src/protocol.rs:316-445 | the same for the extended frame with its binary date, its one hemisphere bit and the data that follows |
| Subscriptions.ViewAndJobAgree | src/subscription_maintenance.rs:324-491 | for every row and time the view reports an unsent reminder exactly when the job would send one, with the same day and fine, and an unmarked withdrawal exactly when the job would mark it |
| Subscriptions.DueAfter | src/subscription_maintenance.rs:324-384 | a row that records a slot as served, written by any chain of merges, makes the job idle within that slot and do the scheduled action in every later one |
| Subscriptions.VisitRemembers | src/subscription_maintenance.rs:561-733 | the merge rules of the sanction row keep exactly the memory of the last slot served |
| Subscriptions.ReminderSchedule | src/subscription_maintenance.rs:144-224 | whatever visits came before in a period, the action due is the one of the slot, or nothing if an earlier visit served the slot; failed messages are retried within their slot |
| Subscriptions.EachSlotActsOnce | src/subscription_maintenance.rs:144-224 | each of D-5 to D-1, D0, overdue days 1 to 7 and the marking is done at most once |
| Subscriptions.DailyRuns | src/subscription_maintenance.rs:144-224 | run once every WIB day, the job does all thirteen reminders and then the marking, each on its day with its fine, and nothing before or after |
| Subscriptions.ScheduleInInstants | src/subscription_maintenance.rs:493-511 | the slots in microseconds: five days before the local midnight (17:00 UTC) that begins the expiry date, that date, seven days, and all that follows |
| Subscriptions.ViewInInstants | src/subscription_maintenance.rs:406-491 | the stage, day and fine of the view in the same instants |
| Subscriptions.LegacyRowsKnowDayFive | src/subscription_maintenance.rs:341-347 | a row with the period but no day stands for the reminder of D-5 and no other |
| Subscriptions.RowTellsTheVisits | src/subscription_maintenance.rs:561-733 | after any visits of a period the row has exactly the days of the last reminders, the fine of the last one, and the mark with its time |
| Subscriptions.NullsKeep | src/subscription_maintenance.rs:684-717 | what a null in the merge keeps, and what another period replaces |
| Subscriptions.AlikeForever | src/subscription_maintenance.rs:663-717 | rows that are equal, or both blank, stay so under every further visit and payment |
| Subscriptions.ResetIsForgetting | src/subscription_maintenance.rs:767-787 | a row reset by a payment behaves forever like no row at all: same actions, same view, same rows written |
| Subscriptions.PaymentStartsAfresh | src/subscription_maintenance.rs:767-787 | a payment leaves nothing that a later period could mistake for its own |
| WibTime.DatesTurnAtLocalMidnight | src/subscription_maintenance.rs:508-511 | the epoch is on date 0, and a date begins with each instant that is 17:00 in UTC, and only then |
| Billing.BillingStore.BuildSubscriptionPaymentQuote | src/subscription_maintenance.rs:229-322 | base, customer reference fee, shipment fee unless the device has a paid order, fine for the overdue days, their sum, and whether withdrawal is due |
| Billing.BillingStore.CreatePendingMidtransPayment | src/midtrans.rs:369-407 | a pending order for thirty days, refused if the order id is taken or the amount not positive |
| Billing.BillingStore.PostMidtransWebhook | src/api.rs:1609-1630 | the provider's status word is mapped or refused, and only settlement and capture can change a subscription |
| Billing.BillingStore.ApplyMidtransWebhook | src/midtrans.rs:436-633 | unknown, settled, unpaid, unreadable and underpaid notifications leave the subscription alone; a paid one extends or starts the period, activates, marks the order paid and resets the sanction |
| Billing.BillingStore.ResolveSubscriptionSanction | src/subscription_maintenance.rs:767-798 | the reset of a present row; an absent one stays absent |
| Billing.BillingStore.SetSubscriptionStatus | src/subscription_maintenance.rs:642-661 | only the status of one subscription changes |
| Billing.BillingStore.UpsertSanctionState | src/subscription_maintenance.rs:663-733 | the insert, or the merge by COALESCE and CASE into a present row |
| Billing.BillingStore.FetchRecords | src/subscription_maintenance.rs:513-559 | the job's records are the rows as they stand when it starts |
| Billing.BillingStore.MaintainRecord | src/subscription_maintenance.rs:144-224 | decide, send, record: one record's turn on the rows fetched for it |
| Billing.BillingStore.RunSubscriptionMaintenance | src/subscription_maintenance.rs:136-227 | although the records are fetched before the loop, the run equals the turns taken one after another on current rows, up to the first message that fails |
| Billing.BillingStore.HasActiveSubscription | src/bot.rs:3149-3173 | active, and the period ends after the reference time |
| Billing.TurnTouchesOneUser | src/subscription_maintenance.rs:144-224 | a turn changes no order, no period and no other user's rows |
| Billing.StoppedStaysStopped | src/subscription_maintenance.rs:144-224 | a run ended by a failed message leaves the remaining subscribers unvisited |
| Billing.ReachedIffNoneBlocks | src/subscription_maintenance.rs:136-227 | a run reaches a subscriber if and only if no earlier one in the list has a message due that fails |
| BillingRuns.GrantPays | src/midtrans.rs:524-632 | a granting webhook pays exactly one order, which was pending, and sets the period and resets the sanction of its user |
| BillingRuns.PaidTimeIsConserved | src/midtrans.rs:470-632 | over every run, the grants are exactly the paid orders, each once; the granted intervals are thirty days each and disjoint; their total is thirty days times the paid orders; the stored period ends with the last one and spans a gapless tail of them |
| BillingRuns.PastDueIsOver | src/subscription_maintenance.rs:582-640 | in every run in order of time, a past due subscription's period is over |
| BillingRuns.SomeGrantCovers | src/midtrans.rs:534-572 | if the last grant ends after a time by which all were received, some grant covers that time |
| BillingRuns.AccessEqualsPaidTime | src/bot.rs:3149-3173 | after every run in order of time the gate is open exactly when the stored period ends later, and exactly when some granted interval contains the time |
| Payments.StatusWords | src/midtrans.rs:338-347 | the provider's words for each outcome, and no others |
| Payments.GrantsIffCovered | src/midtrans.rs:459-537 | a notification grants if and only if the order is pending, it is reported paid, and the amount is readable and covers the order |
| Payments.WithoutGrantNothingChanges | src/midtrans.rs:449-537 | otherwise no subscription, no sanction and no order changes, but a pending order takes the other status reported |
| Payments.GrantGivesThirtyDays | src/midtrans.rs:539-632 | the whole effect of a grant: thirty days from the end of a running period or from now, the plan of the order, and a row that says only when it was resolved |
| Payments.EveryPaymentCovered | src/midtrans.rs:524-537 | over every run, each order was made by a link for the amount its link asked, and each paid one was paid by a notification that covers it, at its time |
| Payments.ClosedNeverGrants | src/midtrans.rs:470-522 | an order reported expired, failed or refunded while pending never grants, whatever is reported later |
| Payments.SettledForGood | src/midtrans.rs:466-497 | an order that is not pending any more never changes again |
| Payments.QuoteParts | src/subscription_maintenance.rs:246-322 | each part of a quote in rupiahs, and when withdrawal is required, counted from the local midnight |
| Payments.LinkMakesOrderIff | src/bot.rs:1036-1062 | a link makes its order if and only if the id is free and the amount positive, and changes nothing else |
| BillingRuns.NoShipmentFeeAfterPayment | src/subscription_maintenance.rs:246-308 | once an order of a device is paid, every later quote for it has no shipment fee, however the run goes on |
| BillingRuns.QuoteAgreesWithView | src/subscription_maintenance.rs:291-320 | for every ledger and time the fine of a quote is the one the view shows, and the quote requires withdrawal exactly when the view does |
| BillingRuns.MaintenanceProjects | src/subscription_maintenance.rs:136-227 | a whole maintenance run is, for each user, the visits it paid to that user |
| BillingRuns.RunProjects | src/subscription_maintenance.rs:144-224 | every run of the whole system is, for each user, a life of that user's subscription alone |
| BillingSchedule.ScheduleHoldsInRuns | src/subscription_maintenance.rs:144-224 | in every run in order of time and for every subscriber, the action due is the one the slot is for, unless a visit since the last payment served the slot |
| BillingSchedule.RowTellsInRuns | src/subscription_maintenance.rs:561-733 | in every run in order of time the row of every subscriber tells the visits since the last payment |
| BillingSchedule.SubscribersHavePaid | src/midtrans.rs:574-600 | a subscription exists only after a payment in the user's history, so there is always a last one |
| BillingSchedule.PastDueIffOverdueRecorded | src/subscription_maintenance.rs:582-640 | in every run, in any order of time, the status is past due if and only if the sanction row records an overdue day, and then of the present period |
| BillingSchedule.PastDueIffVisitedOverdue | src/subscription_maintenance.rs:144-224 | in every run in order of time, the status is past due exactly when a visit since the last payment came after the expiry day and was not left to a failed message |
| BillingSchedule.OverButStillActive | src/subscription_maintenance.rs:203-214 | a period can be over with the status still active: a concrete run in order of time |
| ShipmentFees.ChargedWithinPayable | src/midtrans.rs:470-523 | whatever notifications follow, the fee is charged only with orders that are pending or paid now |
| ShipmentFees.ChargeableTwiceIffTwoPayable | src/subscription_maintenance.rs:259-308 | after any run, the notifications still to come can charge a device's fee twice if and only if two links that ask it are pending or paid |
| ShipmentFees.OneLinkAtATimeChargesOnce | src/subscription_maintenance.rs:259-308 | if each link that asks the fee is made only while none that asked it is pending or paid, the fee is charged at most once |
| ShipmentFees.ShipmentFeeCanBeChargedTwice | src/subscription_maintenance.rs:259-308 | without that it can be charged twice: a concrete run |
| ServiceDistance.DistanceStore.ProcessLocationDistance | src/service_distance.rs:31-122 | the odometer, checkpoint and daily row of one device move as the fold step says, and no other device's rows change |
| ServiceDistance.DistanceStore.BackfillDeviceDistance | src/service_distance.rs:138-180 | the derived rows become the replay of the stored locations, which are in strict id order |
| ServiceDistance.DistanceStore.RecordLocation | src/db.rs:168-202 | storing and processing a location are one step, and the locations stay in strict id order |
| ServiceDistance.UpsertIsUpdate | src/service_distance.rs:100-118 | adding to a date changes that date by the metres, no other date, and the sum by the metres |
| ServiceDistance.SegmentBounds | src/service_distance.rs:193-233 | an accepted segment is between 5 m and 15 000 m |
| ServiceDistance.TotalIsSumOfDays | src/service_distance.rs:63-121 | in every reached state the total is the sum of the daily rows |
| ServiceDistance.RunningMaximaCorrect | src/service_distance.rs:63-80 | a point is a running maximum exactly when its id exceeds every id that arrived before it |
| DistanceSegments.AcceptedIffCounts | src/service_distance.rs:193-233 | exactly which segments count: valid coordinates, 1 to 300 whole seconds, one speed of 2 km/h, 5 m to 50 m per second |
| DistanceSegments.PointAddsItsSegment | src/service_distance.rs:63-121 | a newer point adds exactly its segment to the total and to the row of its date, and an older one changes nothing |
| DistanceSegments.OdometerIsCountedPath | src/service_distance.rs:63-121 | whatever arrives in whatever order, the total is the sum, and each row its date's share, of the segments that count between consecutive running maxima |
| ServiceDistance.LiveIsReplayOfMaxima | src/service_distance.rs:63-121 | whatever arrives in whatever order, repeats included, odometer, checkpoint and table equal the replay of the strict running maxima |
| ServiceDistance.BackfillChangesNothing | src/service_distance.rs:138-180 | for strictly increasing ids the table of locations is the arrivals themselves, so live state and replay are equal; the exact condition is DistanceRuns.BackfillAgreesIffNoneLate |
| ServiceDistance.LateArrivalDiffersFromBackfill | src/service_distance.rs:138-180 | with a late arrival it can differ: a concrete run beside the exact condition |
| ServiceDistance.InsertKeepsOrder | src/service_distance.rs:138-180 | the table of locations stays in strict id order, gains the point, and keeps the row of an id already there |
| DistanceRuns.StoredIsMaxima | src/service_distance.rs:63-80 | when no id arrives late, repeats included, the table of locations is the running maxima |
| DistanceRuns.LateIdIsCountedByBackfill | src/service_distance.rs:138-180 | for every order of ids with a late one there are points with those ids for which live processing counts nothing and a backfill a hundred metres |
| DistanceRuns.BackfillAgreesIffNoneLate | src/service_distance.rs:138-180 | a backfill changes nothing, for all points and metrics, if and only if no id arrives for the first time after a larger one |
| DistanceRuns.RunsStaySound | src/service_distance.rs:31-180 | under any interleaving of arrivals and backfills the locations stay in id order, the total is the sum of the daily rows, and no row is negative |
| DistanceRuns.BackfillIsIdempotent | src/service_distance.rs:138-180 | a second backfill changes nothing, in any state |
| DistanceRuns.BackfillsLeaveNoTrace | src/service_distance.rs:31-180 | while no id arrives late, a run with backfills ends where the points alone, processed live, lead |
| ServiceDistance.SegmentWithinSpeedLimit | src/service_distance.rs:193-233 | an accepted segment stays within 50 m per second of its gap, whatever the distance function |
| ServiceDistance.TotalWithinSpeedLimit | src/service_distance.rs:63-121 | the total is at most 50 m per second between the first and the last point |
| ServiceDistance.DailyRowWithinSpeedLimit | src/service_distance.rs:100-103 | no date's row exceeds 50 m per second over the time of that date so far and one gap, although segments cross midnight |
| ServiceDistance.PhysicalBounds | src/service_distance.rs:193-233 | for any arrival order with repeats, both bounds hold of the state reached, 86 400 + 300 seconds for a date |
| ServiceDistance.RowsNonNegative | src/service_distance.rs:100-118 | no daily row is ever negative |
| ServiceMilestones.BuildServiceMilestones | src/api.rs:1359-1392 | the newest twenty milestones the rows reach, numbered downward without a gap, each dated on the first date whose cumulative sum reaches it up to the epsilon |
| ServiceMilestones.GetDeviceService | src/api.rs:769-832 | the page has the odometer's kilometres, the next milestone and the way to it; for every state reached by points, and every consistent one, it is the page IsPageOf describes, and for any other the milestones its clamped rows reach |
| ServiceMilestones.PageOfReachedState | src/api.rs:769-832 | whatever points a device sent, the page lists exactly the newest min(completed, 20) milestones, completed being the whole millions of metres of the odometer, each on the first date that reached it and dates never rising |
| ServiceMilestones.PageIsUnique | src/api.rs:769-832 | a device has one such page |
| ServiceMilestones.IntervalIsLargest | src/api.rs:1394-1480 | the recommended interval is the largest of the five that divides the milestone |
| ServiceMilestones.DatedMeansMeters | src/api.rs:1359-1392 | a milestone is dated on the first row by which the metres reach its million, up to the epsilon |
| ServiceMilestones.AllAreReached | src/api.rs:815-831 | when the rows sum to the total, the highest milestone they reach is the number of whole thousands |
| ServiceMilestones.CumulativeIsSum | src/api.rs:1359-1392 | the running kilometres of the loop are the sum of the rows passed |
| ServiceMilestones.DatesDescend | src/api.rs:1359-1392 | newer milestones are never dated before older ones |
| ServiceMilestones.ReachedStateIsConsistent | src/api.rs:769-832 | every state reached by processing points meets the premise of the page |
| FuelCalibration.CalibrationStore.StartFuelCalibration | src/api.rs:843-900 | bad fuel type, unknown device and a running calibration are refused in this order; otherwise one opens at the tracked metres |
| FuelCalibration.CalibrationStore.RestartFuelCalibration | src/api.rs:902-958 | running calibrations are invalidated and one opens |
| FuelCalibration.CalibrationStore.CompleteFuelCalibration | src/api.rs:960-1031 | validation errors, then not found, or the active row closed at the tracked metres |
| FuelCalibration.RefusedIff | src/api.rs:1215-1240 | exactly which completions are refused, and why first |
| FuelCalibration.FuelTypeRefusedIff | src/api.rs:1203-1213 | exactly which fuel types are refused, and that an empty one is none |
| FuelCalibration.StartOpens | src/api.rs:843-900 | when a calibration opens, with what, and that nothing else changes |
| FuelCalibration.RestartOpens | src/api.rs:902-958 | the same for a restart, which invalidates what was running |
| FuelCalibration.CompleteCloses | src/api.rs:960-1031 | when the running calibration closes, with its time, metres, litres, cost and fuel, and that no other row changes |
| FuelCalibration.CompleteKeepsInvariant | src/api.rs:960-1031 | completing keeps the window invariant, and the stored distance is the plain difference: the clamp at zero never acts |
| FuelCalibration.StepKeepsInvariant | src/api.rs:843-1031 | every step, locations included, keeps the window invariant |
| FuelCalibration.RunKeepsInvariant | src/api.rs:843-1031 | so every run does |
| FuelCalibration.CalibrationWindows | src/api.rs:843-1031 | under any interleaving at most one calibration is active, completed distances are end minus start, and together they do not exceed what was driven |
| FuelCalibration.WindowsFit | src/api.rs:843-1031 | windows that end before the next begins sum to at most the odometer |
| RideRoute.FilterGpsSpikeOutliers | src/bot.rs:2851-2881 | the loop keeps exactly the points that are no spikes between their raw neighbours, in order |
| RideRoute.TotalRouteDistanceKm | src/bot.rs:2808-2820 | the distance reported is the length of the filtered route |
| RideRoute.KeptPositionsCorrect | src/bot.rs:2851-2881 | a position is kept if and only if it is an end or no spike |
| RideRoute.FilteredIsSubsequence | src/bot.rs:2851-2881 | the filtered points are a subsequence of the raw ones |
| RideRoute.KeepsEnds | src/bot.rs:2851-2881 | the first and the last point are kept |
| RideRoute.RouteWithinBounds | src/bot.rs:2808-2881 | given the metric laws, the distance lies between the direct distance of the ends and the raw path length, although spikes are judged against unfiltered neighbours |
| RideRoute.LeftOutIffSpike | src/bot.rs:2856-2876 | exactly which points are left out: more than 80 m from both raw neighbours, these less than half as far apart as the farther leg |
| RideRoute.SmoothRideIsKept | src/bot.rs:2851-2881 | a ride without legs over 80 m keeps every point |
| EngineSessions.EngineSessionStore.CallTelegram | src/bot.rs:1789-1813 | every call takes the next answer of the outside |
| EngineSessions.EngineSessionStore.ResolveEngineSessionAt | src/bot.rs:3573-3595 | one session becomes finished with its resolution time |
| EngineSessions.EngineSessionStore.FinishRideSessionAndSendSummary | src/bot.rs:765-820 | the messages in their order, each failure leaving the session as it was, and the times used on each path |
| EngineSessions.EngineSessionStore.FinishActiveEngineSessions | src/bot.rs:691-731 | the sessions are ended in turn up to the first failure, failed keyboard edits being ignored |
| EngineSessions.EngineSessionStore.FinishInactiveSubscriptionSessions | src/bot.rs:733-763 | all active sessions end without a message |
| EngineSessions.EngineSessionStore.ProcessEngineOnNotificationForChat | src/bot.rs:613-689 | continue within ten minutes, or end what runs, ask, open a session and record it, stopping at the first failure |
| EngineSessions.EngineSessionStore.ProcessHeartbeatNotificationForChat | src/bot.rs:545-611 | the off path of the same |
| EngineSessions.EngineSessionStore.ProcessInactiveSubscriptionNotificationForChat | src/bot.rs:494-543 | without a subscription the status is announced once and recorded |
| EngineSessions.EngineSessionStore.ProcessHeartbeat | src/bot.rs:370-430 | one heartbeat's turn for the chat, by subscription and status, its failure going no further |
| EngineSessions.EngineSessionStore.ProcessHeartbeatNotifications | src/bot.rs:346-444 | a polled batch is processed oldest first, failures of the chat ignored, the cursor behind each heartbeat |
| EngineSessions.EngineSessionStore.ProcessStaleEngineSessions | src/bot.rs:446-492 | sessions end ten minutes after the last heartbeat of the device |
| EngineSessions.EngineSessionStore.HandleSessionAnswer | src/bot.rs:1248-1334 | the Yes/No path with its gate, lookups and failures |
| EngineSessions.StoppedEarly | src/bot.rs:691-731 | ending several sessions stops at the first failure |
| EngineSessionRuns.FinishActiveEnds | src/bot.rs:691-820 | ending the active sessions touches no finished one and nothing but sessions, and success leaves none active |
| EngineSessionRuns.AnswerClassifies | src/bot.rs:1273-1334 | an answer changes at most the latest session with that prompt, only from pending and only if the calls succeed, Yes to safe and No to theft |
| EngineSessionRuns.StepKeeps | src/bot.rs:346-820 | every step keeps the session invariant and every finished session |
| EngineSessionRuns.SessionsStaySound | src/bot.rs:346-820 | in every reachable state, whatever calls fail: at most one active session, none unless the last recorded status is on, finished exactly when resolved |
| EngineSessionRuns.FinishedNeverChanges | src/bot.rs:659-820 | a finished session is the same at every later point of a run |
| EngineSessionRuns.NewHeartbeat | src/bot.rs:545-689 | a new heartbeat extends the sessions by exactly what the heartbeats alone call for |
| EngineSessionRuns.Replay | src/bot.rs:545-689 | a heartbeat already recorded makes no call and touches no session when processed again |
| EngineSessionRuns.SessionSegmentation | src/bot.rs:545-689 | with the subscription active and calls answered, sessions open at exactly the on heartbeats that are first, follow an off, or come ten minutes after the previous on, under any interleaving with sweeps, answers and replays; replays send nothing |
| EngineSessionRuns.BatchIsSteps | src/bot.rs:346-444 | a polled batch is the single notifications of the runs, one after the other |
| EngineSessionResults.SweepEndsSilentRides | src/bot.rs:446-492 | after any run, with the calls answered, a sweep ten minutes or more after the last heartbeat leaves every session finished, the active one ended now and the rider told; an earlier one changes nothing |
| EngineSessionResults.OffEndsRides | src/bot.rs:545-611 | what an engine going off ends, records and tells, with a theft alert exactly for a reported theft |
| EngineSessionResults.OnAsksRider | src/bot.rs:613-689 | what an engine coming on ends, opens, records and asks, and that within ten minutes it does none of it |
| EngineSessionResults.UnsubscribedHeartbeat | src/bot.rs:389-430 | without a subscription, whatever calls fail: the status announced once, every session ended by off at the time of the heartbeat, none touched by on |
| EngineSessionResults.SilentHeartbeat | src/bot.rs:356-366 | an unbound chat or an unknown status moves the cursor and nothing else |
| EngineSessionResults.AnswerTellsRider | src/bot.rs:1248-1334 | what is sent for a pressed button, in order, and that only a waiting session is more than answered |
| EngineSessionResults.UnsubscribedPress | src/bot.rs:1117-1150 | what is sent for one pressed without a subscription, and that no session changes |
| EngineSessionResults.AskedOncePerOpening | src/bot.rs:545-689 | over every run, with the subscription active and calls answered, the rider was asked about exactly the heartbeats that open a session, once each and in order |

## Where the code and its documentation differ

The model follows the code.

- `README.md:64` speaks of one reminder five days before the end; the code reminds daily from
  D-5 to D-1 and on the expiry day (as `docs/bot.README.md:158-160` says).
- `README.md:58` promises the shipment fee once per device. `ShipmentFees.ShipmentFeeCanBeChargedTwice`
  is a run that charges it twice, and `ChargeableTwiceIffTwoPayable` says exactly when that can
  still happen: when two links that ask it are pending or paid.
- `README.md:67` says the status becomes past due after expiry. `BillingSchedule.OverButStillActive`
  is a run where it does not; `PastDueIffOverdueRecorded` and `PastDueIffVisitedOverdue` say
  exactly when it is. `AccessEqualsPaidTime` shows that access does not depend on the difference.

## Left out

- HTTP, Telegram and Midtrans requests, SQL, signatures, message texts, keyboards, stickers, configuration and logging: only whether a call succeeded is modelled.
- Database failures: every write succeeds, and each transaction is one step.
- Interleaving inside one maintenance record: the code fetches, sends and writes without a lock over them; here they are one step.
- Two-byte errors that straddle the last serial byte and the checksum: the checksum is sent high byte first, so the burst guarantee does not extend there.
- Floating point rounding, non-finite coordinates and the trigonometry of haversine.
- Messages.DecodeMessage: the terminal flags of a heartbeat and the engine status guessed from them are not part of this model.
- Subscription ids: a user has one subscription row, so subscriptions and sanctions are keyed by user.
- Null period ends and the statuses canceled and expired: none of the modelled operations writes them.
- Billing.BillingStore.RunSubscriptionMaintenance: the order of the records is a parameter, so what is proved holds for the order of the query and for every other.
- Billing.BillingStore.ApplyMidtransWebhook: does not model the transaction id, payment type and raw notification columns, nor their uniqueness; the resolution time is the receive time instead of the database clock.
- Billing.BillingStore.CreatePendingMidtransPayment: does not model the expiry time, chat and payment kind columns, which no modelled operation reads.
- Creation and update timestamps, and chat ids of subscriptions.
- The resolution of a user's device, tier and plan before a quote: they are parameters.
- EngineSessions.EngineSessionStore.ProcessHeartbeatNotifications: models one device and chat; the batch limit is a parameter, and a failure between the writes of one heartbeat is not modelled, only one before the cursor moves.
- EngineSessions.EngineSessionStore.ProcessStaleEngineSessions: models one device and chat; a failure there ends the sweep of the groups behind it, which for them is a sweep that did not happen.
- Prompts of other devices in the same chat, and message ids Telegram might repeat across them.
- Disjointness of session times: the summary path resolves at the current time instead of the end of the ride.
- FuelCalibration.CalibrationStore.CompleteFuelCalibration: does not model the riding seconds, engine seconds and trip count stored with the window.
- The riding metrics, timelines and analytics of the bot and the API.
- FuelCalibration.NormalizeFuelType takes a trimmed text and counts characters where the code counts bytes after trimming.
- Deleted locations, heartbeats and devices, rows of old migrations, and ids that become visible out of order.
