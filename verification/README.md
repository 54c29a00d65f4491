# TechRent, verified

TechRent is a device-rental shop: a NestJS backend over PostgreSQL and Redis, and a Next.js
client. This project models the parts of it that are hard to get right and proves what they
promise:

- **Device-list cache.** One process, one Redis connection, any number of requests, loads and data
  changes at once. Single flight, and freshness of answers, over whole interleaved runs, with the
  window in `invalidateAll` that can break freshness; and nobody is left waiting. (`CacheKeys`,
  `DevicesCache`, `CacheProtocol`, `CacheFreshness`, `CachePurges`, `CacheAnswers`, `CacheRace`,
  `CacheServes`)
- **Assistant streaming.** Lines of JSON from the language model, the hold-back filter for leaked
  instructions and foreign text, server-sent events, and the browser's reader; every stage and the
  whole chain are independent of how the bytes were cut. (`Strings`, `Guardrails`, `Relay`,
  `Ndjson`, `JsonText`, `Sse`, `SseRoundTrip`, `ChatPipeline`)
- **Bookings, deposits and debts.** The state machine of a booking, row locks, and interleaved
  creation, swap, debt collection and overdue marking. No double booking, when transactions can
  block one another for good and when not, conservation of deposits, covered debts, the cap on loss
  claims. (`BusinessPolicy`, `BusinessDays`, `Bookings`, `BookingEffects`, `BookingStore`, `Shop`,
  `ShopBooks`, `ShopCalendar`, `ShopFlags`, `ShopLoss`, `ShopRuns`, `ShopMeans`, `ShopLossRace`,
  `ShopProgress`, `ShopDeadlock`, `Ledger`, `Debtors`, `Lists`, `Payments`)
- **Amounts in words.** The contract's number printer, with two independent readers that recover
  every natural number: one from any words that carry its value, and a strict one that refuses every
  group of words that is not said as it should be. (`VietnameseNumber`)
- **Reviews and tokens.** The edit quota, the stored ratings, two-group paging, and the
  token-refresh queue of the client. (`ReviewQuota`, `Ratings`, `RatingsRace`, `Paging`, `RefreshQueue`)

`dafny verify dfyconfig.toml` checks all of it.

## How it is modelled

Money is exact (`real`), instants are integers of milliseconds, text is a sequence of UTF-16 code
units. A concurrent component is a state, an `Event` datatype with one event per stretch of code
between two awaits (or per database or Redis command), a function `Apply` and a function `Run`
over event sequences; a theorem about every run quantifies over all event sequences. Code that
changes fields in place is a class whose methods are proved against the functions that the
theorems are about. `Outcome` values stand for the program's exceptions. What these functions mean
is said a second time without them, in the policy's own numbers: `BookingEffects` for single
operations, `ShopMeans` for calls in the shop, `Relay.Promised` for what an answer shows.

Clocks, random numbers, parsers of foreign JSON and the choices of users are parameters.
What an operation checks before it writes, without a lock, is checked in the event that writes.

Where the code does less than its comments or documentation say, the model follows the code and a
lemma shows it:

- `invalidateAll` lists the index and deletes it in two commands. A list stored in between loses its
  index entry, and later invalidations miss it (`CacheRace.RaceReachesOrphan`,
  `CacheRace.OrphanAnswersStale`); a listing keeps the cache fresh exactly if every cached list is in
  the index or newer than the change (`CacheFreshness.MembersKeepsFresh`).
- The browser's patterns stop at U+2028 and U+2029, which JSON does not escape: a token containing
  one makes the reader throw (`SseRoundTrip.RoundTrip`).
- The cap on a loss claim fails after five downward swaps (`ShopLossRace.FiveSwapsBreakTheCap`) and
  when a swap ends on a booking that was confirmed lost after the swap looked at it
  (`ShopLossRace.CapBreaksInRun`); `ShopLoss.ClaimsAreCappedExactly` says when it holds.
- `swapDevice` locks two device rows in order to avoid deadlocks, but one of them is the device the
  booking had when the fault was looked at, and it also writes the device the booking has now. If
  that is another one, the swap can wait for a transaction that waits for the swap
  (`ShopDeadlock.SwapsDeadlockInRun`, `ShopDeadlock.StaleReadCanDeadlock`). And a return, an early
  end or a loss writes the booking first and the device second, a swap the other way round
  (`ShopDeadlock.OperationDeadlocksInRun`, `ShopDeadlock.OperationCanDeadlock`). Otherwise nobody
  blocks for good (`ShopProgress.NeverStuckInRuns`, `ShopProgress.EveryoneCanFinishInRuns`).
- The edit quota fails when days go back between overlapping edits
  (`ReviewQuota.AlternatingDaysAreUnlimited`); `ReviewQuota.QuotaHoldsExactly` says when it holds.
- Review transactions that interleave leave the stored rating short of what was committed in between
  (`RatingsRace.StoredRatingExactly`).
- Overlapping payment notifications can overwrite each other's result
  (`Payments.OverlappingNotificationsOverwrite`); `Payments.AgreementIsKeptExactly` says when they
  cannot. A payment can succeed for a booking that stays closed (`Payments.PaidBookingEndsConfirmed`).
- Adding working days does not keep the order of two instants on a weekend
  (`BusinessDays.OrderByClock`).

## Model

| member | source | states |
|---|---|---|
| CacheKeys.KeyDeterminesFilter | backend/src/devices/devices-cache.service.ts:95-114 | two normalised filters with the same cache key are the same filter, although the search may contain ":" |
| CacheKeys.KeyIsNotIndexKey | backend/src/devices/devices-cache.service.ts:45-46 | no list is stored under the key of the index |
| CacheKeys.PartsAreColonFree | backend/src/devices/dto/list-devices-query.dto.ts:26-77 | after validation only the search field can contain ":" |
| CacheKeys.JoinDetermined | backend/src/devices/devices-cache.service.ts:104-113 | the seven joined fields can be recovered when only the fifth may contain ":" |
| DevicesCache.DevicesCacheService.Resume | backend/src/devices/devices-cache.service.ts:76-92 | after the Redis read: answer, join, or start and register a query with its generation |
| CacheFreshness.LoadedKeepsFresh | backend/src/devices/devices-cache.service.ts:83-87 | storing a result only in the generation its query began in keeps the freshness invariant |
| DevicesCache.DevicesCacheService.Settle | backend/src/devices/devices-cache.service.ts:88-90 | a settling query removes its own entry and never another one |
| DevicesCache.DevicesCacheService.Invalidate | backend/src/devices/devices-cache.service.ts:155-156 | an invalidation raises the generation and leaves nothing to join |
| CacheAnswers.SingleFlight | backend/src/devices/devices-cache.service.ts:73-92 | in every run at most one query per key and generation runs, and the joinable queries are exactly the running ones of the current generation |
| CacheAnswers.AnswersMatchRequests | backend/src/devices/devices-cache.service.ts:70-93 | in every run an answer is the list of the request's own key |
| CacheFreshness.AnswersAreFresh | backend/src/devices/devices-cache.service.ts:70-170 | in every run in which each SMEMBERS finds every cached list in the index or newer than the change, a request that arrives after a change was invalidated is answered with data read after it |
| CacheFreshness.MembersKeepsFresh | backend/src/devices/devices-cache.service.ts:158-160 | executing a SMEMBERS keeps the freshness invariant if and only if it covers the cache in this sense |
| CacheFreshness.RunKeepsFresh | backend/src/devices/devices-cache.service.ts:141-170 | the freshness invariant holds in every state of such a run |
| CachePurges.StoresApartCover | backend/src/devices/devices-cache.service.ts:141-170 | if no list is stored between any SMEMBERS and its DEL, every SMEMBERS of the run finds the whole cache in the index |
| CachePurges.ApartAnswersAreFresh | backend/src/devices/devices-cache.service.ts:70-170 | freshness of answers in every such run, in particular when listing and deletion are one step |
| CacheRace.ListingDecides | backend/src/devices/devices-cache.service.ts:158-164 | with a SMEMBERS alone on the connection and no query running, everything served after the invalidation is newer than the change if and only if the SMEMBERS covered the cache |
| CacheRace.OrphanAnswersStale | backend/src/devices/devices-cache.service.ts:158-164 | an entry missing from the index survives a complete invalidation and is served after it |
| CacheRace.RaceReachesOrphan | backend/src/devices/devices-cache.service.ts:141-170 | a concrete run from the start reaches such an entry |
| CacheServes.EveryRequestCanEnd | backend/src/devices/devices-cache.service.ts:70-93 | from every state of every run each request can be brought to its end, and that is an answer unless a query of the same list had failed |
| CacheServes.ColdRequestIsServed | backend/src/devices/devices-cache.service.ts:70-93 | with nothing else under way, a request for a list that is not cached is answered with the data of now, and the list is then in the cache and in the index |
| Guardrails.FindUnsafeOutput | backend/src/ai/guardrails.ts:37-50 | the loop returns the first unsafe position of the text and its reason, and nothing exactly for safe text |
| Relay.MarkersDoNotNest | backend/src/ai/guardrails.ts:30 | no leak marker lies inside another one |
| Relay.VerdictStands | backend/src/ai/ai.service.ts:322-348 | a verdict against a text is not changed by what follows |
| Relay.HoldbackSuffices | backend/src/ai/guardrails.ts:32-34 | what is sent of a safe text ends before anything that can turn out unsafe later |
| Relay.AnswersGrow | backend/src/ai/ai.service.ts:306-312 | what the client has seen is a prefix of what it sees later |
| Relay.ShownTextIsSafe | backend/src/ai/ai.service.ts:324-328 | the part of an unsafe answer that is shown contains no marker and no foreign character |
| Relay.Relay | backend/src/ai/ai.service.ts:302-419 | for every cutting into chunks the tokens add up to what the batch filter shows of the whole text and close as it does, no token is empty; said by place: a first foreign character cuts the text there, a first leak marker cuts it there and adds the canned reply, after a blank line unless nothing was shown |
| Relay.ShowsAsPromised | backend/src/ai/ai.service.ts:326-332 | what an answer shows, from the first foreign character or leak marker of the text alone |
| Relay.CutsDoNotMatter | backend/src/ai/ai.service.ts:302-405 | two complete streams with the same text show the same answer |
| Ndjson.TrimIsCore | backend/src/ai/ollama.client.ts:127 | trimming removes exactly the white space at both ends |
| Strings.SegmentsAreText | backend/src/ai/ollama.client.ts:123-128 | the segments closed again and what follows are the text, and hold no separator |
| Ndjson.ReadChunks | backend/src/ai/ollama.client.ts:119-147 | for every cutting the generator hands on the parsed non-blank newline-terminated lines of the whole stream, up to the first bad one |
| Ndjson.FeedIsParsed | backend/src/ai/ollama.client.ts:126-146 | all lines if they parse, otherwise those before the first that does not, and the failure |
| JsonText.ParseStringify | backend/src/ai/ai.controller.ts:76-77 | printing a sent object and parsing it back loses nothing the browser looks at |
| JsonText.CutTextDoesNotParse | frontend/src/lib/ai-chat-api.ts:81 | an object text cut off inside its string does not parse |
| Sse.Print | backend/src/ai/ai.controller.ts:74-78 | the controller's loop writes one event block per event, in order |
| Sse.ReadStream | frontend/src/lib/ai-chat-api.ts:67-90 | for every cutting the reader finds the tokens and the ending that the whole text has |
| SseRoundTrip.RoundTrip | frontend/src/lib/ai-chat-api.ts:70-90 | the printed events are read back exactly if and only if no event up to the first error contains U+2028 or U+2029; otherwise reading throws |
| SseRoundTrip.ReadPrinted | frontend/src/lib/ai-chat-api.ts:74-88 | what reading a printed stream gives in every case |
| SseRoundTrip.FieldsOfBlock | frontend/src/lib/ai-chat-api.ts:78-79 | the two patterns find the event's name and the first line of its data |
| ChatPipeline.Chat | backend/src/ai/ai.service.ts:290-418 | from the model's response, cut anywhere, to the browser, cut anywhere: the text shown is what the batch filter shows of the whole answer, that is up to its first unsafe place and with the canned reply exactly after a leak; or reading throws exactly when that text contains a separator |
| VietnameseNumber.ReadGroup | backend/src/bookings/contract/vietnamese-number.ts:20-42 | the words of a three-digit group, which the strict reader accepts as its value |
| VietnameseNumber.NumberToWords | backend/src/bookings/contract/vietnamese-number.ts:45-67 | the two loops print the words of the rounded magnitude, and the strict reader recovers it |
| VietnameseNumber.WordsRepeatEveryBillion | backend/src/bookings/contract/vietnamese-number.ts:54-65 | the words of n are the words of n div 10^9, "tỷ", and the full reading of the rest, also across empty groups |
| VietnameseNumber.ParseWords | backend/src/bookings/contract/vietnamese-number.ts:45-67 | a one-pass reader recovers every natural number from its words |
| VietnameseNumber.ParseTextRoundTrip | backend/src/bookings/contract/vietnamese-number.ts:66 | the same from the text, words joined by spaces |
| VietnameseNumber.StrictlyParsed | backend/src/bookings/contract/vietnamese-number.ts:45-67 | the strict reader recovers every natural number: it wants "không trăm" in groups below the leading one, "linh" before a lone unit, "lăm" and "mốt" where they belong, and the units in their order |
| VietnameseNumber.OnlyGroupsAreAccepted | backend/src/bookings/contract/vietnamese-number.ts:20-42 | of a group the strict reader accepts the printed words and no others |
| VietnameseNumber.TextInjective | backend/src/bookings/contract/vietnamese-number.ts:45-67 | different amounts never read the same |
| BusinessDays.AddBusinessDays | backend/src/common/business-policy.ts:208-216 | the loop ends on the n-th working day after the start, at the same time of day |
| BusinessDays.SpanCountsWorkdays | backend/src/common/business-policy.ts:202-216 | that day is the least later day with exactly n working days in between, and a working day |
| BusinessDays.SpanInClosedForm | backend/src/common/business-policy.ts:208-216 | the exact number of calendar days, by weekday |
| BusinessDays.SpanBounds | backend/src/common/business-policy.ts:208-216 | it is between n + 2 floor((n-1)/5) and n + 2 ceil(n/5) |
| BusinessDays.WorkdaysLaterCompose | backend/src/common/business-policy.ts:208-216 | adding a and then b working days is adding a + b |
| BusinessDays.WorkdaysLaterIsMonotone | backend/src/common/business-policy.ts:208-216 | a later start never ends on an earlier day |
| BusinessDays.OrderByClock | backend/src/common/business-policy.ts:208-216 | by the clock a later start ends earlier exactly if no working day has begun between the two and its time of day is the earlier one |
| BusinessDays.WeekendReversesOrder | backend/src/common/business-policy.ts:208-216 | a Saturday afternoon and the Sunday morning after it end on Monday in the other order |
| BusinessDays.DepositRefundDeadline | backend/src/common/business-policy.ts:219-221 | the refund deadline is a working day, three to five days later, at the same time |
| BusinessPolicy.CalculateRefundPercentage | backend/src/common/business-policy.ts:79-88 | the search through the tiers gives 100, 50 or 0 percent by the hours left |
| BusinessPolicy.CalculateLateFeeForDays | backend/src/common/business-policy.ts:91-101 | the loop gives 0.2 times the price times n(n+1)/2, capped at the value |
| BusinessPolicy.LateFeeIsLateFee | backend/src/common/business-policy.ts:91-116 | nothing until the end, and for more than n-1 and at most n days after it the lesser of 0.2 times the price times 1 + ... + n and the value |
| BusinessPolicy.LateFeeBounds | backend/src/common/business-policy.ts:103-116 | the fee is between nothing and the value, and never falls with time |
| BusinessPolicy.RentalIsCovered | backend/src/common/business-policy.ts:130-155 | a rental is charged the fewest hours or days that cover it, by days exactly above 24 hours |
| BusinessPolicy.SettlementBalances | backend/src/common/business-policy.ts:185-200 | the settlement is the one way to balance deposit and fees with refund and debt not negative and one of them zero |
| BusinessPolicy.UnusedRentalRefundBounds | backend/src/common/business-policy.ts:227-241 | the refund is a multiple of 1000 between nothing and the price, never grows with time, and is zero after the end |
| BusinessPolicy.UnusedRefundIsExact | backend/src/common/business-policy.ts:227-241 | the refund is the unused share of the price, rounded down to a thousand |
| BusinessPolicy.LossClaimCap | backend/src/common/business-policy.ts:247-262 | deposit and debt stay within 1.5 times the value if and only if the deposit does |
| BusinessPolicy.EquivalentValueBounds | backend/src/common/business-policy.ts:265-273 | equivalent means between 80% and 120% of the value |
| Bookings.PerformKeepsOrder | backend/src/bookings/bookings.service.ts:457-1127 | every operation keeps a booking's books in order: deposit taken once, refund within the deposit and paid once, debt covered, completion settled, loss only when marked |
| Bookings.ReturnKeepsOrder | backend/src/bookings/bookings.service.ts:696-787 | a return settles: deposit + debt = refund + late fee + damage + repair, with refund or debt zero |
| Bookings.CancelKeepsOrder | backend/src/bookings/bookings.service.ts:1042-1099 | a cancellation never refunds more than the deposit that was taken, and nothing before one was |
| BookingEffects.Performs | backend/src/bookings/bookings.service.ts:457-1127 | every operation succeeds exactly when it may and then has the effect the policy states in numbers on the booking, the history and the device: return, cancellation, early end and loss among them |
| BookingStore.BookingStore.Confirm | backend/src/bookings/bookings.service.ts:457-468 | only a pending booking is confirmed, and nothing else changes |
| BookingStore.BookingStore.ConfirmBookingAfterPayment | backend/src/payments/payments.service.ts:218-222 | the conditional update confirms a pending booking and changes nothing else |
| BookingStore.BookingStore.ExpireIfStillPending | backend/src/bookings/bookings.service.ts:1200-1210 | only a pending booking expires |
| BookingStore.BookingStore.Start | backend/src/bookings/bookings.service.ts:652-684 | a booking is handed over only when confirmed, paid, signed and documented |
| BookingStore.BookingStore.ConfirmReturn | backend/src/bookings/bookings.service.ts:696-787 | a return of a running booking, refused without description, fee and photos of a damage: no late fee up to the end, then 0.2 times the price times n(n+1)/2 up to the value; the damage fee is zero exactly when intact; refund and debt balance, the refund is due on the third working day, the device is free or in maintenance |
| BookingStore.BookingStore.MarkDepositRefunded | backend/src/bookings/bookings.service.ts:862-880 | a refund is paid only while one is due |
| BookingStore.BookingStore.Cancel | backend/src/bookings/bookings.service.ts:1042-1111 | who may cancel; the whole deposit from 24 hours ahead or for a store's fault, half from 6, else nothing; and the device status |
| BookingStore.BookingStore.EndEarly | backend/src/bookings/booking-issues.service.ts:403-447 | an early end refunds the whole deposit and the unused rental |
| BookingStore.BookingStore.ChargeCustomerFault | backend/src/bookings/booking-issues.service.ts:467-500 | repair costs within the device's value are added to the booking |
| BookingStore.BookingStore.ConfirmLost | backend/src/bookings/booking-loss.service.ts:128-163 | a marked booking is lost, with its debt, and its device withdrawn |
| BookingStore.BookingStore.Collect | backend/src/bookings/debts.service.ts:110-147 | a payment within the outstanding debt is recorded; anything else is refused without a change |
| BookingStore.BookingStore.FlagSuspectedLost | backend/src/bookings/booking-loss.service.ts:69-104 | an uninterrupted check marks exactly the running bookings more than seven days overdue and not yet marked, and returns their number |
| BookingStore.BookingStore.CreateBooking | backend/src/bookings/bookings.service.ts:282-335 | a booking is created if and only if the device exists, is rentable and no active booking of it shares a moment with the interval; the new row has the price and deposit of the policy |
| BookingStore.BookingStore.SwapDevice | backend/src/bookings/booking-issues.service.ts:235-370 | a swap succeeds if and only if the issue is open, three photos are given and the device is an equivalent one that is free; it moves the booking and sets both device states |
| BookingStore.BookingStore.FindReplacementCandidates | backend/src/bookings/booking-issues.service.ts:160-197 | the list holds exactly the devices a swap would accept, nearest value first |
| ShopCalendar.NeverDoubleBooked | backend/src/bookings/bookings.service.ts:282-335 | in every interleaving of creations, swaps and all other operations no moment belongs to two active bookings of one device |
| ShopCalendar.ApplyKeepsCalendar | backend/src/bookings/booking-issues.service.ts:263-370 | every step keeps: locks are exclusive, and what a transaction found free stays free until it writes |
| ShopMeans.CreationDecides | backend/src/bookings/bookings.service.ts:282-335 | an uninterrupted creation in the shop adds the new booking if and only if the device is to be had and free, and otherwise nothing |
| ShopMeans.SwapMoves | backend/src/bookings/booking-issues.service.ts:235-370 | an uninterrupted swap to a free equivalent device moves the booking and sets both device states |
| ShopMeans.CollectionPays | backend/src/bookings/debts.service.ts:110-147 | an uninterrupted payment is recorded if and only if it is between 1000 and what is outstanding |
| ShopProgress.TidyExactly | backend/src/bookings/booking-issues.service.ts:265-321 | an event ends the order in which everyone waits if and only if a swap reads a booking that has been moved to a device it has not locked, or an operation takes the booking of an open swap, or a swap begins whose booking an operation has |
| ShopProgress.InOrderRunsStayTidy | backend/src/bookings/booking-issues.service.ts:265-321 | in every run from the opening without such an event, every swap holds the device it has read, and no swap waits out of order |
| ShopProgress.NeverStuckInRuns | backend/src/bookings/booking-issues.service.ts:235-321 | in every state of every run from the opening somebody can go on, unless all have finished, or some swap waits for the device it leaves or for an operation that waits for a device |
| ShopProgress.EveryoneCanFinishInRuns | backend/src/bookings/booking-issues.service.ts:235-321 | from every state in order, all transactions, collections and operations can run to their end, rolling back only swaps about to read a device they have not locked, and none at all if each open swap is the only one of its booking |
| ShopDeadlock.WaitsForOldExactly | backend/src/bookings/booking-issues.service.ts:318-325 | a swap that has found its target free can ever come to wait for the device it leaves if and only if it has not locked it |
| ShopDeadlock.StaleReadCanDeadlock | backend/src/bookings/booking-issues.service.ts:265-325 | wherever a swap that can be carried out reads a free device it has not locked, the run can go on to a circle of two waiting transactions, if the swap holds a device that comes later in the order or another device would do |
| ShopDeadlock.CircleLasts | backend/src/bookings/booking-issues.service.ts:263-325 | whatever happens then, neither of the two goes on until one is rolled back |
| ShopDeadlock.SwapsDeadlockInRun | backend/src/bookings/booking-issues.service.ts:200-325 | a run from a shop's opening that ends in such a circle |
| ShopDeadlock.OperationCanDeadlock | backend/src/bookings/bookings.service.ts:761-792 | wherever a swap has found its target free, an operation that writes its booking and then its device can come to wait for the swap while the swap waits for it |
| ShopDeadlock.CrossingLasts | backend/src/bookings/booking-loss.service.ts:140-163 | whatever happens then, neither of the two goes on until one is rolled back |
| ShopDeadlock.OperationDeadlocksInRun | backend/src/bookings/booking-issues.service.ts:405-447 | a run from a shop's opening that ends so, for each of these operations |
| ShopBooks.RunKeepsBooks | backend/src/bookings/bookings.service.ts:457-1127 | in every interleaving the books of every booking stay in order |
| ShopBooks.AdvanceCollectionKeepsBooks | backend/src/bookings/debts.service.ts:115-147 | concurrent collections never overpay: the row lock keeps an approved amount covered |
| ShopFlags.MarkedOnceFromOpening | backend/src/bookings/booking-loss.service.ts:69-104 | under any overlap of checks, from the opening on, a booking is marked once and the counts add up to the marked bookings |
| ShopFlags.LostWasOverdue | backend/src/bookings/booking-loss.service.ts:134-163 | in every run a lost booking was marked more than seven days after its end |
| ShopLoss.ClaimsAreCappedExactly | backend/src/bookings/booking-loss.service.ts:128-163 | from the opening on, in every state the claim for a lost booking swapped at most four times is within 1.5 times its device's value, if and only if no swap writes a device worth too little onto a booking that has become lost |
| ShopLoss.SwapOntoLost | backend/src/bookings/booking-issues.service.ts:318-321 | a swap that ends on a lost booking breaks the cap exactly if the claim is above 1.5 times the new device's value |
| ShopLoss.LostClaimsAreCapped | backend/src/bookings/booking-loss.service.ts:128-163 | in every run in which no swap ends on a lost booking, after at most four swaps deposit and debt of a lost booking are within 1.5 times the device's value |
| ShopLossRace.FiveSwapsBreakTheCap | backend/src/bookings/booking-issues.service.ts:235-370 | a run from a shop's opening with five swaps, each to an equivalent device, and a loss whose claim is above the cap |
| ShopLossRace.LostDuringSwap | backend/src/bookings/booking-issues.service.ts:270-321 | a loss confirmed between a stale swap's check and its write breaks the cap |
| ShopLossRace.TwoSwapsBreakTheCap | backend/src/bookings/booking-issues.service.ts:200-321 | two swaps begun from one report, the booking confirmed lost in the middle of the second: after two swaps the claim is above the cap |
| ShopLossRace.CapBreaksInRun | backend/src/bookings/booking-issues.service.ts:200-321 | the same from a shop's opening: creation, payment, handover, report, marking, two swaps and the loss |
| Ledger.DepositsAreConserved | backend/src/bookings/bookings.service.ts:977-979 | deposits taken = deposits held on the dashboard + refunds paid + deposits kept |
| Ledger.DepositsAreConservedInRuns | backend/src/bookings/bookings.service.ts:862-880 | the same at the end of every run, each deposit taken and returned at most once and never more than it was |
| Ledger.HeldIsHeld | backend/src/bookings/bookings.service.ts:977-979 | what the dashboard shows as held is each running booking's deposit and each refund still due, without demonstrations |
| Ledger.BlockingDebtIsShownDebt | backend/src/bookings/bookings.service.ts:346-355 | the debt that blocks a new booking is the total the customer is shown, and all that is unpaid on the customer's bookings |
| Ledger.AggregateIsSumOfLines | backend/src/bookings/debts.service.ts:40-78 | the aggregate of owed minus paid is the sum of the outstanding lines |
| Ledger.LinesAreUnpaidBookings | backend/src/bookings/debts.service.ts:40-78 | one line for each booking of the customer with something unpaid, with what is unpaid, newest first |
| Ledger.DebtsAreCoveredInRuns | backend/src/bookings/debts.service.ts:110-147 | in every run the recorded payments are what was paid, never more than owed, at most owed/1000 of them, and nothing is owed while a booking is active |
| Debtors.FindDebtors | backend/src/bookings/debts.service.ts:81-104 | exactly the customers with something outstanding, each once with all lines, greatest debt first |
| Debtors.DebtorsMatchDashboard | backend/src/bookings/bookings.service.ts:980-983 | everyone with an unpaid booking that counts, and nobody else, with those bookings and their sum; the totals add up to the dashboard's outstanding debt, which is all that is unpaid |
| Lists.SortIsOrdered | backend/src/bookings/debts.service.ts:103 | sorting by a key orders the list and keeps its elements |
| Payments.ConfirmedOnceFromTheStart | backend/src/payments/payments.service.ts:117-222 | however notifications repeat and interleave, a booking is confirmed at most once, and by payment only on a signed success whose amount in hundredths is within one half of 100 times the payment's |
| Payments.FirstStep | backend/src/payments/payments.service.ts:117-136 | which answer a notification gets: a signed one of exactly 100 times the amount of an open payment is accepted, and one of another amount is refused with 04 |
| Payments.LaterSteps | backend/src/payments/payments.service.ts:139-222 | an accepted notification settles its payment, and a success then confirms the booking if that is waiting |
| Payments.SettledPaymentsStayFromTheStart | backend/src/payments/payments.service.ts:131-147 | in every run in which no notification passes the check while another one of the payment has, unless both report a failure, a settled payment keeps its status but for the refund of a success |
| Payments.AgreementIsKeptExactly | backend/src/payments/payments.service.ts:134-147 | that guard is exact: an event leaves the safe states if and only if it violates it |
| Payments.ClashCanOverwrite | backend/src/payments/payments.service.ts:134-147 | wherever the guard is violated the run can go on so that a settled payment changes |
| Payments.OverlappingNotificationsOverwrite | backend/src/payments/payments.service.ts:117-147 | from their receipt, two contradicting notifications turn a success into a failure |
| Payments.PaidBookingEndsConfirmed | backend/src/payments/payments.service.ts:209-222 | over all runs, a paid booking is confirmed in the end exactly if it was not closed before the conditional update and is not closed after it |
| Payments.PaymentAfterClosing | backend/src/payments/payments.service.ts:139-222 | from its receipt, a payment whose booking is closed before the conditional update succeeds and leaves it closed |
| ReviewQuota.QuotaHoldsExactly | backend/src/reviews/reviews.service.ts:294-321 | in every interleaving, every state has at most five saved edits a day and the counter of the row's day, if and only if no second update starts a day that was already edited on |
| ReviewQuota.RunKeepsQuota | backend/src/reviews/reviews.service.ts:294-321 | in particular in every run from a new review in which days never go back |
| ReviewQuota.EditSucceedsExactly | backend/src/reviews/reviews.service.ts:294-321 | after such a run an edit by itself succeeds if and only if the review is not removed and fewer than five were saved that day |
| ReviewQuota.AlternatingDaysAreUnlimited | backend/src/reviews/reviews.service.ts:277-321 | from a new review, calls begun before and after midnight that run in turns save any number of edits on one day |
| Ratings.ReviewStore.RecalculateDeviceRating | backend/src/reviews/reviews.service.ts:733-749 | the stored rating becomes the one of the visible reviews |
| Ratings.RatingIsMean | backend/src/reviews/reviews.service.ts:733-749 | that rating: the number of reviews of the device neither hidden nor deleted, and the mean of their stars |
| Ratings.ReviewStore.Create | backend/src/reviews/reviews.service.ts:239-265 | one review per customer and device, by those who may write; all stored ratings stay right |
| Ratings.ReviewStore.Update | backend/src/reviews/reviews.service.ts:277-327 | an edit succeeds if and only if its author may write, the review is not removed, something changes and fewer than five edits were made that day; the rating is then the one given, if one was, the edit day is today and the counter one more; all stored ratings stay right |
| Ratings.ReviewStore.Remove | backend/src/reviews/reviews.service.ts:330-337 | the author's removal deletes the row; all stored ratings stay right |
| Ratings.ReviewStore.ModeratorDelete | backend/src/reviews/reviews.service.ts:343-370 | a moderator's removal keeps the row but not in the rating |
| Ratings.ReviewStore.Restore | backend/src/reviews/reviews.service.ts:390-409 | restoring counts the review again |
| Ratings.ReviewStore.SetVisibility | backend/src/reviews/reviews.service.ts:578-618 | hiding and showing keep all stored ratings right |
| RatingsRace.StoredRatingExactly | backend/src/reviews/reviews.service.ts:733-749 | for any number of interleaved review transactions, the stored count is short by what the visible reviews gained between the last committer's aggregate and its commit, and the rating is right if and only if neither their number nor their stars moved in it |
| RatingsRace.RightWithoutCountedChanges | backend/src/reviews/reviews.service.ts:733-749 | in particular it is right when no counted change was committed in that window |
| RatingsRace.ShortByVisibleCreations | backend/src/reviews/reviews.service.ts:258-265 | when only creations were, the count is short by the visible ones among them |
| RatingsRace.InterleavedCreationsLoseCount | backend/src/reviews/reviews.service.ts:258-265 | a run of two creations that both aggregate before either commits, and a count one short |
| Ratings.GetSummary | backend/src/reviews/reviews.service.ts:469-498 | the distribution counts the visible reviews by stars, sums to the count, and the average is the rounded mean |
| Ratings.AverageIsClose | backend/src/reviews/reviews.service.ts:494 | the shown average is the tenth nearest to the mean, the greater of two |
| Paging.FindRentedFirst | backend/src/reviews/reviews.service.ts:621-655 | a page has the reviews from the skipped ones on, as many as fit, renters' reviews before the others |
| Paging.AllPagesAreAll | backend/src/reviews/reviews.service.ts:142-157 | all pages together are the whole list, nothing lost or repeated |
| Paging.PagesAreFewest | backend/src/reviews/reviews.service.ts:142-157 | there are as few pages as that takes, at least one, and every page but the last is full |
| RefreshQueue.RefreshedOnceFromTheStart | frontend/src/lib/api-client.ts:23-96 | from the start, in every interleaving at most one refresh runs, requests wait only while one does, are woken once, and none is sent more than twice |
| RefreshQueue.RefreshWakesEveryone | frontend/src/lib/api-client.ts:26-29 | when a refresh ends, every waiting request has been woken exactly once and the queue is empty |
| RefreshQueue.ApiClient.FlushQueue | frontend/src/lib/api-client.ts:26-29 | every callback of the queue runs once, in order, and the queue is emptied |
| RefreshQueue.ApiClient.OnError | frontend/src/lib/api-client.ts:31-71 | the handler up to its first await: an ordinary request with its first 401 leads the refresh if none runs and waits otherwise, if there is a refresh token; every other one is rejected and no refresh begins |
| RefreshQueue.ApiClient.OnRefreshed | frontend/src/lib/api-client.ts:72-96 | the rest of the handler: every waiting request and the leader go out once more, or are rejected |
| RefreshQueue.LeaderComesThrough | frontend/src/lib/api-client.ts:31-96 | in every run a request that leads a refresh which succeeds goes out a second time and ends with its next answer, whatever happens in between |
| RefreshQueue.WaiterComesThrough | frontend/src/lib/api-client.ts:57-69 | so does every request that waits for the refresh |

## Left out

- User interface, mail, images, VNPay signing, contract HTML and PDF, OAuth, sockets, notifications: foreign calls or templates.
- Redis failures, several server processes, and the switch that turns the cache off for load tests: the cache promises coordination within one process only.
- The expiry times of cache entries: an entry may expire at any moment.
- CacheFreshness.AnswersAreFresh: holds for runs in which every SMEMBERS covers the cache, because one that does not leads to stale answers (`CacheRace.ListingDecides`).
- ShopLoss.LostClaimsAreCapped: holds for runs in which no swap ends on a lost booking, because such a swap can break the cap (`ShopLoss.SwapOntoLost`).
- ReviewQuota.RunKeepsQuota: holds for runs in which days do not go back; `ReviewQuota.QuotaHoldsExactly` has the exact condition.
- Number and boolean text in JSON, surrogate escapes, and statistics other than the guardrail: the event texts are modelled for tokens, errors and the guardrail.
- UTF-8 decoding: pieces of text arrive as code units.
- A parse error of a model line that coincides with the client going away is reported as a broken stream.
- The check of computed late fees inside `relay`, its timings and its logging.
- The prompt-injection patterns and the retrieval of knowledge: heuristics.
- `moneyInWords` (upper case and the currency word), and amounts at which JavaScript numbers stop being exact.
- Rounding of doubles and the limits of decimal columns: arithmetic is exact.
- The checks on the customer before a booking's transaction (blacklist, debt, identity papers, past start times).
- `Shop`: a swap reads the two devices in one step, and a cancellation writes the booking and frees its device in one step.
- `Shop`, `BookingStore`: an operation other than a creation, a swap or a collection checks its booking in the step in which it writes it; what comes between an early check and the write is not modelled.
- ShopProgress.EveryoneCanFinishInRuns: holds for states in order, because from others nobody may ever finish (`ShopDeadlock.StaleReadCanDeadlock`, `ShopDeadlock.OperationCanDeadlock`).
- ShopDeadlock.StaleReadCanDeadlock: leaves out the swap that reads a device after all those it has locked when no further device would do for the booking.
- The exclusion constraint in the database: the locks alone are proved sufficient.
- List prices are never edited in `Shop`; with edits the cap on loss claims has no fixed device value to refer to.
- Inspection records, photos, maintenance tickets and contract snapshots, except where they guard an operation.
- Rows of demonstration accounts: the statistics leave them out, and no operation creates them.
- `Ratings` has one review transaction at a time; `RatingsRace` interleaves them for one device, without the edit quota and the uniqueness of reviews.
- `Ratings.ReviewStore` answers `Forbidden` also for an account that does not exist.
- Search, lists for staff, featured reviews, and the other public orders of reviews: queries only.
