# Talab: a verified model of the gateway's workers

Talab sends WhatsApp messages for many workspaces. Its workers share a database and a set of
queues; devices are spread over the workers by a hash of the device id. This project models the
parts in which something can go wrong between two steps, or in arithmetic, and proves what they
keep. `dafny verify dfyconfig.toml` checks everything.

- `JsDate`: the proleptic Gregorian calendar behind `Date.UTC` and the UTC getters (section 21.4.1 of ECMA-262)
- `Schedule`: `computeNextRunAt`: DAILY, WEEKLY and MONTHLY schedules in the UTC+7 calendar
- `Shard`: the djb2 hash under JavaScript's 32-bit operators (sections 7.1.6 and 7.1.7 of ECMA-262)
- `Scheduler`, `ScheduledMessages`, `ScheduledRows`: any number of workers that snapshot, recompute, claim by conditional update, and fire; one worker's tick and the service's calls; disabled rows, and ticks inside a toggle
- `Messages`, `MessagesQueue`, `Overshoot`, `Retries`: sending under a monthly quota and a daily limit, three slots to a worker; one slot of the processor; the runs that pass the limits by the most; which retries the limits bear
- `Broadcasts`: the dispatch loop, interleaved with the jobs that report progress on its counters
- `Receipts`: the messages table, and delivery receipts that move sent messages on
- `Sessions`: sockets, close events and reconnect timers over sharded workers
- `Base64`, `AuthStore`: the session encoding (section 4 of RFC 4648), the key store, save and reload
- `RateLimiter`: the fixed-window limiter of the frontend
- `Webhooks`: retry bookkeeping of deliveries
- `Ocr`: the labelled amount in recognised text

**How concurrency is modelled.** Where several workers or handlers interleave, a module has a
datatype of states, one of steps, and `Apply`. One database call, clock reading or socket call is
one step. A step that is not enabled changes nothing, so a run is any list of steps, and a theorem
over all lists is a theorem over all interleavings. Code that updates things in place is a class
whose methods are proved to take steps of that machine; where others may act between two awaits,
the methods let them.

**Findings.** These hold of the code as it is.

- The rate limiter lets 2·max − 1 requests of a key through in a closed minute, and that number is
  reached for every path. `Retry-After` is one millisecond too early exactly when the window ends a
  whole number of seconds from now.
- All ids that are anagrams of each other share a shard exactly without sharding and with 2, 4, 8, 16
  or 32 shards, where the hash is a plain checksum of the characters.
- A broadcast stays RUNNING for ever when some but not all recipients were skipped and every message
  was counted before the dispatch loop wrote the final `totalTargets`.
- A device's daily limit L can be passed by two messages, and a workspace's monthly quota Q by 3K − 1,
  where its devices lie on K shards. L + 2 and Q + 3K − 1 are the maxima over all runs in
  which only failed messages are retried, when the other limit is not the lower one (or is none).
  `retry` takes any message, though: under any limit of at least one, the rows of a day or month have
  a bound if and only if nothing but failed messages is retried. A message that is retried in another status leaves
  the count after it was sent, and its next receipt brings it back.
- A row that is disabled still fires exactly when a worker has claimed it, or holds an unprocessed
  entry whose `nextRunAt` is the row's (or one that a disabling toggle under way will write back).
- An occurrence can fire twice only in a run in which a worker claims a row while a toggle of it, not
  yet written, holds a next run no later than the one claimed; and from any start in which worker 0
  owns the device there is a run in which it does. A next run moves back exactly when a toggle writes a value that the row has passed.
- A close event leaves a device DISCONNECTED in the table with a live session exactly when its socket
  was replaced by that session and the close is permanent (or the table said so before).
- A stored session returns from a reload exactly when no object in it has `_type` equal to
  'Buffer' and a string `data`.
- For a webhook answered with a bad status, the body of the response is overwritten by the text of
  the error that the status throws.

## Model

| member | source | states |
|---|---|---|
| JsDate.YearStep | src/common/utils/schedule.ts:13-19 | the closed form behind the year getter counts every year's days, leap days included, for all years |
| JsDate.YearUnique | src/common/utils/schedule.ts:19 | a day lies in exactly one year, the one the year getter finds |
| JsDate.MonthStep | src/common/utils/schedule.ts:42-51 | the month table is the running sum of the month lengths, and ends at the length of the year |
| JsDate.DayOfCivilOfDay | src/common/utils/schedule.ts:17-19 | the date getters followed by `Date.UTC` give the day back |
| JsDate.CivilOfDayOfCivil | src/common/utils/schedule.ts:29-52 | `Date.UTC` followed by the getters gives every valid date back, so the two are inverse to each other |
| JsDate.DayZero | src/common/utils/schedule.ts:42 | day 0 of the next month is the last day of this one, December and February included: the idiom that measures a month |
| JsDate.SameMonth | src/common/utils/schedule.ts:43-47 | moving the day inside a month keeps the month and the year |
| JsDate.ClockOfTime | src/common/utils/schedule.ts:14-15 | the hour and minute getters read the time in the day |
| JsDate.Epoch | src/common/utils/schedule.ts:13-19 | instant 0 was Thursday, 1 January 1970 |
| JsDate.WeekDayNext | src/common/utils/schedule.ts:16 | the day after a day of the week is the next one, so the epoch fixes them all |
| JsDate.CivilOfNextDay | src/common/utils/schedule.ts:17-19 | the date getters of the next day give the date after: they count dates as a calendar does, from the epoch on and back |
| Schedule.NextDayIsLeast | src/common/utils/schedule.ts:27-54 | the day picked is a matching day, not before today (or tomorrow when today's time is past), and no earlier day matches |
| Schedule.ComputesNextDay | src/common/utils/schedule.ts:11-62 | through day overflow, month clamping and year rollover, the code returns the sending time of that day |
| Schedule.NextRunIsLeast | src/common/utils/schedule.ts:11-62 | for every valid schedule and every instant from the epoch on, the result is the least occurrence strictly after it |
| Schedule.OccurrenceFalls | src/common/utils/schedule.ts:1-61 | an occurrence is an instant 7 hours ahead of which the clock reads sendHour:sendMinute to the millisecond, on any day, on a day that is a whole number of weeks and `dayOfWeek` (or 0) days from a Sunday, or on the `dayOfMonth` (or the first) of a month, or its last day when it is shorter |
| Schedule.NextRunFalls | src/common/utils/schedule.ts:11-62 | in these terms too, the result is the first such instant after the start |
| Schedule.FridayAtNine | src/common/utils/schedule.ts:33-39 | from the epoch, a Friday schedule for 9:00 runs on Friday, 2 January 1970, at 02:00 UTC |
| Schedule.LeastAfterUnique | src/common/utils/schedule.ts:11-62 | that determines the result |
| Schedule.NextRunMonotone | src/common/utils/schedule.ts:11-62 | a later start never gives an earlier run, and the run is the same until it is reached |
| Schedule.RunsListOccurrences | src/common/utils/schedule.ts:11-62 | iterating lists occurrences only, in strict order, with none skipped |
| Schedule.EveryOccurrenceRuns | src/common/utils/schedule.ts:11-62 | every later occurrence is reached after finitely many iterations |
| Schedule.RunGap | src/common/utils/schedule.ts:28-54 | successive runs are exactly one day, exactly seven days, or a whole 28 to 31 days apart |
| Schedule.ErrorIffUnknown | src/common/utils/schedule.ts:56-57 | only an unknown repeat type throws, with a text that names it |
| Shard.RoundIsHorner | src/common/utils/shard.ts:14 | one round with a signed shift and `>>> 0` is 33·hash + c modulo 2^32 |
| Shard.HashAppend | src/common/utils/shard.ts:12-15 | appending a character multiplies the hash by 33 and adds the character |
| Shard.ShardForDevice | src/common/utils/shard.ts:10-17 | the loop computes (5381·33^n + Σ c_i·33^(n−1−i)) mod 2^32, reduced to a shard; 0 without sharding |
| Shard.Cancel33 | src/common/utils/shard.ts:14 | 33 is invertible modulo 2^32 |
| Shard.OneCharacterApart | src/common/utils/shard.ts:10-17 | two ids of equal length that differ in one character never have the same 32-bit hash |
| Shard.FewShardsIsChecksum | src/common/utils/shard.ts:16 | for 2, 4, 8, 16 or 32 shards only the sum of the characters matters |
| Shard.AnagramsShareShard | src/common/utils/shard.ts:10-17 | so anagrams share their shard, as they do without sharding |
| Shard.AnagramBlindIff | src/common/utils/shard.ts:10-17 | for every number of shards: all anagrams share a shard if and only if it is at most 1 or one of 2, 4, 8, 16, 32 |
| Scheduler.StepKeepsCore | src/queue/processors/scheduled-messages.processor.ts:44-84 | every step of every worker, user and toggle keeps: rows, snapshots, claims and pending toggles hold occurrences of their schedules, messages are true, and each has one job at most |
| Scheduler.StepKeepsInv | src/queue/processors/scheduled-messages.processor.ts:44-84 | every step but a claim that undercuts a toggle keeps: what was claimed or fired is passed and stays so, and nothing is claimed or fired twice |
| Scheduler.ClaimIsFirst | src/queue/processors/scheduled-messages.processor.ts:59-63 | when the conditional update matches, nobody has fired or claimed that occurrence |
| Scheduler.AtMostOncePerOccurrence | src/queue/processors/scheduled-messages.processor.ts:44-84 | with any number of workers, even with equal shard ids, and toggles in two database calls: in every run in which no claim undercuts a toggle under way, an occurrence gets at most one message |
| Scheduler.NoClaimNoUndercut | src/scheduled-messages/scheduled-messages.service.ts:60-70 | for that it is enough that no claim of a row falls between a toggle's read and its write |
| Scheduler.MessagesAreTrue | src/queue/processors/scheduled-messages.processor.ts:45-84 | in every run at all, messages are for true occurrences and never early, carry the device, the content and the schedule of their row while it is there, rows hold occurrences, and a message is enqueued at most once |
| Scheduler.DrainedQueue | src/queue/processors/scheduled-messages.processor.ts:65-84 | once all workers are idle every message is in the queue exactly once |
| Scheduler.ForwardIffNotStale | src/scheduled-messages/scheduled-messages.service.ts:66-70 | a step moves a row's `nextRunAt` back if and only if it is a toggle's write of a value the row has passed |
| Scheduler.NextRunNeverMovesBack | src/scheduled-messages/scheduled-messages.service.ts:60-71 | over every run without such a write, no surviving row's `nextRunAt` decreases |
| ScheduledMessages.FireNext | src/queue/processors/scheduled-messages.processor.ts:55-84 | in a tick that runs alone the conditional update of every due row matches, and firing it keeps the account of the tick |
| ScheduledMessages.NoneLeft | src/queue/processors/scheduled-messages.processor.ts:45-50 | after all due rows have fired, no enabled row of the shard is due at the time of the tick |
| ScheduledMessages.ScheduledMessagesProcessor.FindMany | src/queue/processors/scheduled-messages.processor.ts:45-47 | returns each enabled due row once |
| ScheduledMessages.ScheduledMessagesProcessor.FilterShard | src/queue/processors/scheduled-messages.processor.ts:50 | keeps exactly the rows of the worker's shard |
| ScheduledMessages.ScheduledMessagesProcessor.FireAll | src/queue/processors/scheduled-messages.processor.ts:55-87 | the loop over the rows as they were read, whatever time passes at each, fires them all in order |
| ScheduledMessages.ScheduledMessagesProcessor.Process | src/queue/processors/scheduled-messages.processor.ts:39-88 | a tick that runs alone fires each enabled due row of its shard once, however many runs were missed: field by field, a message with the row's device and content, the time of the tick and the run it is for, one queue entry, and a next run after that time; other rows stay as they were, and none of the shard is left due; a tick for another shard changes nothing |
| ScheduledMessages.ScheduledMessagesProcessor.Create | src/scheduled-messages/scheduled-messages.service.ts:10-42 | adds one row whose first run is the least occurrence after now; fails on an unknown repeat type |
| ScheduledMessages.ScheduledMessagesProcessor.Toggle | src/scheduled-messages/scheduled-messages.service.ts:60-71 | its calls with nothing in between: enabling sets the least occurrence after now, which is not earlier than before, disabling keeps the run, no other row changes; a missing row is an error |
| ScheduledMessages.ScheduledMessagesProcessor.Remove | src/scheduled-messages/scheduled-messages.service.ts:52-58 | removes the row, and fails when there is none |
| ScheduledRows.RunStaysQuiet | src/queue/processors/scheduled-messages.processor.ts:45-77 | a disabled row that no worker has claimed or holds a matching entry for gets no message in any run that does not enable it |
| ScheduledRows.DisabledFiresIff | src/queue/processors/scheduled-messages.processor.ts:59-77 | for every reachable state and disabled row: some run that does not enable it creates a message for it if and only if a worker has claimed it or holds an unprocessed entry that will match |
| ScheduledRows.DisabledRowFires | src/queue/processors/scheduled-messages.processor.ts:44-77 | from any start in which worker 0 owns the device, and for any valid schedule, there is such a run |
| ScheduledRows.SplitToggleFiresTwice | src/scheduled-messages/scheduled-messages.service.ts:60-70 | from any start in which worker 0 owns the device, with any other workers, and for any valid schedule: a tick between the read and the write of `toggle` makes an occurrence fire twice, and its claim undercuts the toggle |
| Messages.Periods | src/queue/processors/messages.processor.ts:55-77 | a day or month starts before its instants, and later instants lie in the same or a later one |
| Messages.DayStartsAtMidnight | src/queue/processors/messages.processor.ts:76-77 | the day counted over starts at midnight of the server's zone, less than 24 hours before |
| Messages.MonthStartsOnFirst | src/queue/processors/messages.processor.ts:54-56 | the month counted over starts at midnight UTC of the first of the current month |
| Messages.StepKeepsInv | src/queue/processors/messages.processor.ts:31-115 | every step but the retry of a message that did not fail keeps: for every day or month, rows sent plus slots that may still send stay below the limit plus the slots there are |
| Messages.StepKeepsSolo | src/messages/messages.service.ts:51-72 | and a message has one job at most, in the queue or in a slot, none once sent or failed, and a provider's id only while sent |
| Messages.DailyOvershoot | src/queue/processors/messages.processor.ts:51-115 | in every run that retries failed messages only, the messages of a device that were sent between two midnights of the server never exceed its plan's limit, or 200 without a plan, by more than two, those in flight at midnight included |
| Messages.MonthlyOvershoot | src/queue/processors/messages.processor.ts:37-69 | in every such run, when the devices of a workspace lie on K shards, its messages sent in one month of the calendar never exceed its plan's quota by more than 3K − 1 |
| Messages.OwnersAreWorkers | src/queue/processors/messages.processor.ts:37-41 | K is at most the number N of workers, so the excess is at most 3N − 1 |
| Overshoot.DailyMaximum | src/queue/processors/messages.processor.ts:14-115 | for every plan with a daily limit l ≥ 1, and for 200 without a plan, and any number of workers, l + 2 is the maximum over those runs, when no quota stops the device before |
| Overshoot.MonthlyMaximum | src/queue/processors/messages.processor.ts:14-115 | for every plan with a quota q ≥ 1 and every workspace that has a device, q + 3K − 1 is the maximum over those runs, when no daily limit is below the quota |
| Overshoot.FullRunSends | src/queue/processors/messages.processor.ts:31-115 | the run that reaches it: n messages one by one, then one more by every slot at once |
| Retries.RetriesUnbounded | src/messages/messages.service.ts:57-72 | for each status but FAILED, any limits and every n: a run that retries messages of that status alone, and makes n rows of one day or month |
| Retries.BoundIffFailedOnly | src/messages/messages.service.ts:51-72 | under any limit of at least 1, whatever the statuses from which messages may be retried: the rows of a device's day, or of a workspace's month, have a bound over all runs if and only if none but FAILED is among them |
| Messages.OnlyOwnerSends | src/queue/processors/messages.processor.ts:37-41 | in every run at all, only the worker that owns a device hands its messages to a socket |
| Messages.NoReceiptBeforeSent | src/queue/processors/messages.processor.ts:111-115 | in every run at all, a message has no provider id before the write that marks it SENT, and no receipt changes it |
| Messages.SentNeverMovesBack | src/whatsapp/whatsapp-session.manager.ts:139-146 | in every run that retries failed messages only, with jobs and receipts in any order, a sent message stays sent and its status never moves back |
| MessagesQueue.MessagesProcessor.CheckMonth | src/queue/processors/messages.processor.ts:43-69 | with others acting at each await, the slot passes if and only if the workspace has no plan, or its quota is not positive, or at the second call fewer of its rows than the quota are SENT, DELIVERED or READ since the first of the month of the first call |
| MessagesQueue.MessagesProcessor.CheckDay | src/queue/processors/messages.processor.ts:49-89 | the same for the device's rows since midnight: against the plan's daily limit, where 0 is none, and against 200 without a plan |
| MessagesQueue.MessagesProcessor.Handover | src/queue/processors/messages.processor.ts:91-111 | sends exactly when the device is connected and the socket answers, stamped with the provider's id and the time of the answer |
| MessagesQueue.MessagesProcessor.Finish | src/queue/processors/messages.processor.ts:111-115 | writes SENT with that time and id, or FAILED, on that message alone |
| MessagesQueue.MessagesProcessor.Process | src/queue/processors/messages.processor.ts:31-115 | drops the job of a missing or sent message, leaves another shard's in the queue, and otherwise makes a run of its own steps and the given steps of others that ends SENT or FAILED |
| Broadcasts.StepKeepsInv | src/queue/processors/broadcasts.processor.ts:25-86 | every step of the loop and of the message jobs keeps: recipient rows match their jobs, counters count them, and the broadcast is completing only when nothing is uncounted |
| Broadcasts.CompletedMeansCounted | src/queue/processors/messages.processor.ts:146-167 | in every run, a COMPLETED broadcast has passed every recipient and counted every message |
| Broadcasts.CompletedIff | src/queue/processors/messages.processor.ts:161-166 | a drained broadcast is COMPLETED if and only if everybody or nobody was skipped or some message was counted after the final `totalTargets` was written |
| Broadcasts.FinalTotals | src/queue/processors/broadcasts.processor.ts:74-78 | when drained, successes plus failures are the targets, each counter agrees with the recipient rows, and targets plus skipped are the original list |
| Broadcasts.DelaysPaced | src/queue/processors/broadcasts.processor.ts:62-64 | in every run, the k-th queued message has a delay between 3000k and 8000k ms, with every gap between 3000 and 8000, and there is one for each message |
| Broadcasts.AnyDelay | src/queue/processors/broadcasts.processor.ts:8-10 | the delay added may be any from 3000 to 8000 ms, and no other |
| Broadcasts.StuckRunning | src/queue/processors/broadcasts.processor.ts:74-86 | a run after which nothing is left to do and the broadcast is still RUNNING |
| Broadcasts.BroadcastRows.constructor | src/broadcasts/broadcasts.service.ts:24-34 | a new broadcast counts every recipient as a target |
| Broadcasts.BroadcastRows.WriteRecipient | src/queue/processors/messages.processor.ts:152-155 | the first database call of the progress update is the step that reports |
| Broadcasts.BroadcastRows.IncrementCounter | src/queue/processors/messages.processor.ts:156-161 | the second is the step that counts and compares with the targets of that moment |
| Broadcasts.BroadcastRows.WriteCompleted | src/queue/processors/messages.processor.ts:162-165 | the third completes when the comparison said so |
| Broadcasts.BroadcastRows.DispatchOne | src/queue/processors/broadcasts.processor.ts:33-71 | an opted-out recipient is failed without a job, and any other gets one whose delay is the one before and what was drawn, whatever message jobs do before and after |
| Broadcasts.BroadcastRows.FinishDispatch | src/queue/processors/broadcasts.processor.ts:74-86 | writes the final targets, and completes an empty broadcast |
| Broadcasts.BroadcastRows.Process | src/queue/processors/broadcasts.processor.ts:25-86 | for any opt-outs, any draws from 3000 to 8000 and any steps of message jobs at each await: exactly the recipients that did not opt out get a job, their number is the final target, the delays are the running sums of the draws, and the whole is the run of the machine with those steps in those places |
| Receipts.RaisedNext | src/whatsapp/whatsapp-session.manager.ts:122-146 | one receipt moves the row it is about, and only forward |
| Receipts.OneReceipt | src/whatsapp/whatsapp-session.manager.ts:122-146 | what one receipt does, field by field: of ours, to an id that ends in `@s.whatsapp.net`, with a key id, it makes the first row with that id in the workspace DELIVERED for code 3 unless that is READ, and READ for 4 and 5; nothing else changes |
| Receipts.MessageTable.OnMessagesUpdate | src/whatsapp/whatsapp-session.manager.ts:121-153 | after an event every row is raised to the most any of its receipts asked |
| Receipts.ReceiptsOnlyAdvance | src/whatsapp/whatsapp-session.manager.ts:139-146 | a status ends at the maximum of where it was and what was asked, and a message without a provider id is untouched |
| Receipts.MostAskedIsMax | src/whatsapp/whatsapp-session.manager.ts:128-137 | what was asked is the maximum over the receipts that find the row |
| Receipts.OrderDoesNotMatter | src/whatsapp/whatsapp-session.manager.ts:121-146 | order and repetition of receipts make no difference |
| Receipts.EventsAdd | src/whatsapp/whatsapp-session.manager.ts:121-146 | two events in turn are one event with both lists |
| Sessions.ConnectKeepsOk | src/whatsapp/whatsapp-session.manager.ts:50-72 | connecting keeps every session the most recent socket of its device, and ends the replaced one |
| Sessions.ConnectFields | src/whatsapp/whatsapp-session.manager.ts:50-72 | connecting ends the old socket of the device, and leaves a new one as its session when it is in the table and none otherwise; nothing else in memory changes |
| Sessions.CloseKeepsOk | src/whatsapp/whatsapp-session.manager.ts:225-230 | a close event, late or repeated, keeps that too |
| Sessions.StepKeepsInv | src/whatsapp/whatsapp-session.manager.ts:23-268 | restarts, restores, device jobs, timers, socket events and changes of the device table keep every session map, timer and socket inside its worker's shard |
| Sessions.OneSessionPerDevice | src/queue/processors/devices.processor.ts:25-35 | in every run a device has a session with its owner at most, and no other live socket on any worker |
| Sessions.SessionIsLatest | src/whatsapp/whatsapp-session.manager.ts:225-230 | in every run a session is exactly the most recent socket while that is neither ended nor closed |
| Sessions.ClosedStep | src/whatsapp/whatsapp-session.manager.ts:216-258 | a close event, code by code: after 401, 403, 405 and 500 the stored session is gone, the row is DISCONNECTED and no timer is set; after any other code or none, rows and stored sessions stay, and a timer is set exactly when the socket is the current one |
| Sessions.SocketSteps | src/whatsapp/whatsapp-session.manager.ts:173-197 | a QR code makes the device PAIRING, an open connection CONNECTED, and saved credentials are stored, all for devices of the table only |
| Sessions.ListStep | src/whatsapp/whatsapp-session.manager.ts:23-48 | a starting worker lists exactly the CONNECTED devices of its shard |
| Sessions.ConnectSteps | src/queue/processors/devices.processor.ts:25-35 | a restore and a timer connect, and a device job does so on its own shard only; another worker leaves it in the queue |
| Sessions.CloseOfReplaced | src/whatsapp/whatsapp-session.manager.ts:225-257 | in every run, a close event changes nothing at all if and only if its socket is not current and the close is not permanent or finds closed rows; a reconnect is set if and only if the socket is current and the close is not permanent |
| Sessions.DisconnectedWhileLiveIff | src/whatsapp/whatsapp-session.manager.ts:225-237 | a close event leaves its device DISCONNECTED with a live session if and only if the socket was replaced by that session and the close is permanent, or the table said so before |
| Sessions.ReplacedSocketDisconnects | src/whatsapp/whatsapp-session.manager.ts:232-237 | from any start, and for any device of the table, there is a run in which that happens |
| Sessions.SessionManager.EndSession | src/whatsapp/whatsapp-session.manager.ts:262-268 | `disconnect` ends and forgets the device's socket, if any |
| Sessions.SessionManager.ConnectDevice | src/whatsapp/whatsapp-session.manager.ts:50-72 | `connect` replaces the session, or leaves none when the device is unknown |
| Sessions.SessionManager.ProcessDeviceJob | src/queue/processors/devices.processor.ts:25-35 | only the owner connects; another shard's job changes nothing |
| Sessions.SessionManager.OnClose | src/whatsapp/whatsapp-session.manager.ts:216-258 | the same of the handler: sessions, timers, stored sessions and device rows after each code |
| Sessions.SessionManager.FireTimer | src/whatsapp/whatsapp-session.manager.ts:252-256 | a reconnect timer connects a device of the worker's own shard |
| Sessions.SessionManager.OnModuleInit | src/whatsapp/whatsapp-session.manager.ts:23-48 | restores exactly the connected devices of the shard |
| Base64.JoinSplit | src/whatsapp/whatsapp-auth-store.ts:7-24 | regrouping bytes into sextets and back loses nothing |
| Base64.WritesAlphabet | src/whatsapp/whatsapp-auth-store.ts:7 | the writer uses the 64 characters of the alphabet in order |
| Base64.ReadsAlphabet | src/whatsapp/whatsapp-auth-store.ts:24 | the reader knows them, and `-` and `_`, and nothing else |
| Base64.EncodeShape | src/whatsapp/whatsapp-auth-store.ts:7 | four characters for every three bytes begun: those of the sextets, then one `=` for each byte short |
| Base64.SextetsOfEncode | src/whatsapp/whatsapp-auth-store.ts:7-24 | a lenient reader that skips padding sees the sextets that were written |
| Base64.RoundTrip | src/whatsapp/whatsapp-auth-store.ts:7-24 | decoding an encoded byte string returns it, whatever its length modulo three |
| AuthStore.SerializedHasNoBytes | src/whatsapp/whatsapp-auth-store.ts:5-18 | what is stored contains no byte array at any depth |
| AuthStore.RoundTripIffClean | src/whatsapp/whatsapp-auth-store.ts:5-34 | decoding an encoded tree returns the tree if and only if no object in it looks like encoded bytes |
| AuthStore.DecodedIff | src/whatsapp/whatsapp-auth-store.ts:20-25 | an object is read as bytes exactly when its `_type` is the text Buffer and its `data` a text |
| AuthStore.SetRefines | src/whatsapp/whatsapp-auth-store.ts:71-83 | updating the two-level map is updating one flat map from (type, id) |
| AuthStore.PutAllAt | src/whatsapp/whatsapp-auth-store.ts:71-83 | after a `set`, a key holds what its last entry says, nothing when that is null, and what it held when there is none |
| AuthStore.ReloadIffClean | src/whatsapp/whatsapp-auth-store.ts:45-97 | reloading a saved blob returns it if and only if nothing in it looks like encoded bytes |
| AuthStore.OpRefines | src/whatsapp/whatsapp-auth-store.ts:45-97 | each of `set`, `clear`, a change of credentials, a save and a reload refines the simple map |
| AuthStore.StoreIsMap | src/whatsapp/whatsapp-auth-store.ts:45-97 | under any sequence of them the store is that map, and a reload returns it as of the last save |
| AuthStore.AuthState.constructor | src/whatsapp/whatsapp-auth-store.ts:45-52 | loads the stored blob, or starts with fresh credentials and no keys |
| AuthStore.AuthState.Get | src/whatsapp/whatsapp-auth-store.ts:55-69 | returns exactly the asked keys that the flat map has, with their values; those of type app-state-sync-key are converted unless null, false, 0 or empty |
| AuthStore.AuthState.Set | src/whatsapp/whatsapp-auth-store.ts:71-83 | changes the flat map entry by entry, in place |
| AuthStore.AuthState.Clear | src/whatsapp/whatsapp-auth-store.ts:85-87 | forgets every key |
| AuthStore.AuthState.SaveCreds | src/whatsapp/whatsapp-auth-store.ts:90-97 | stores what a reload returns exactly when the blob is clean |
| RateLimiter.Middleware.Handle | frontend/middleware.ts:7-51 | for each request, the key it counts under, the limit of 20 or 300, the 60-second window, the answer, and `Retry-After` as the seconds left rounded up; other keys untouched |
| RateLimiter.RunKeepsKeyInv | frontend/middleware.ts:32-50 | over any requests at non-decreasing times, what a key's windows keep about times and counts |
| RateLimiter.WindowBound | frontend/middleware.ts:32-39 | a window lets through at most the largest limit used with its key |
| RateLimiter.SlidingBound | frontend/middleware.ts:32-39 | any closed interval of a window's length lets through at most twice that limit, less one |
| RateLimiter.AuthBound | frontend/middleware.ts:7-28 | 39 for an authentication key, which the default rule never shares |
| RateLimiter.AnyKeyBound | frontend/middleware.ts:7-28 | 599 for any key, although `/` is counted with the default key under the stricter limit |
| RateLimiter.SlidingBoundReached | frontend/middleware.ts:7-39 | for every address, 39 requests to `/` or an authentication path, and 599 to any other, are let through in one closed minute |
| RateLimiter.RetryAfterHonoured | frontend/middleware.ts:39-47 | a client that waits `Retry-After` seconds is let through if and only if the remaining time is not a whole number of seconds |
| Webhooks.WebhooksProcessor.Mark | src/queue/processors/webhooks.processor.ts:58-74 | the row after recording a failed attempt |
| Webhooks.WebhooksProcessor.Process | src/queue/processors/webhooks.processor.ts:25-74 | one attempt throws exactly when it failed, and leaves the row stated: its status by the attempts left, the code, the first 2000 characters of the body or the error, the count, and a next retry 10 s · 2^n ahead exactly while there will be one |
| Webhooks.RunConsistent | src/queue/processors/webhooks.processor.ts:14-74 | row, attempts made and delays agree after any outcomes |
| Webhooks.DeliveryStatus | src/queue/processors/webhooks.processor.ts:42-73 | for any limit: SUCCESS, FAILED and RETRYING each if and only if the attempts made say so, `retryCount` is the number of failures, and a next retry is named exactly while RETRYING |
| Webhooks.TotalDelay | src/queue/processors/webhooks.processor.ts:61-71 | a delivery that failed n times for good recorded delays of 10000·(2^(n−1) − 1) ms in all |
| Webhooks.BadStatusRecordedOnce | src/queue/processors/webhooks.processor.ts:37-54 | recording a bad status twice counts once and keeps the code, but the response body is lost to the error's text |
| Ocr.GreedyMatch | src/ocr/ocr.service.ts:21-22 | every match at a place has the same filler, and none a longer number |
| Ocr.AmountReIsLeftmost | src/ocr/ocr.service.ts:45 | the expression finds the leftmost place with a match, and the longest number there; none only when no place matches |
| Ocr.GroupedReads | src/ocr/ocr.service.ts:47 | removing the commas of a grouped number leaves its digits |
| Ocr.RenderParses | src/ocr/ocr.service.ts:47 | a rendered amount without its commas is read back |
| Ocr.ParseParts | src/ocr/ocr.service.ts:47 | digits, a point and any number of digits read as the whole number and its fraction |
| Ocr.CapturesNumber | src/ocr/ocr.service.ts:21-22 | after a label and filler the whole number is captured, and nothing after it |
| Ocr.LabelledAmountReadsBack | src/ocr/ocr.service.ts:36-49 | for every amount in hundredths but 0, with any of its digits and commas in Arabic, any of the six labels in any case, and any digit-free filler: the amount is read back; 0 is not |

## Left out

- Schedule.NextRunIsLeast: starts before 1970 are excluded, since a clock there is none the system has; `Date.UTC`'s reading of two-digit years is in the model and cannot occur after it.
- ScheduledMessages.ScheduledMessagesProcessor.Toggle: the method has nobody acting between its calls; toggles whose calls are interleaved are steps of the state machine.
- ScheduledMessages.ScheduledMessagesProcessor.Remove: the lookup and the delete are one step; a row that goes in between is an error of the delete instead.
- ScheduledMessages.ScheduledMessagesProcessor.Process: the method is a tick that runs alone; ticks that interleave are the state machine's. The times that pass between its readings of the clock are parameters.
- Scheduler.AtMostOncePerOccurrence: rows always have a `nextRunAt`; the source never writes null there. A worker that crashes between claim and message is a run that stops there, so the occurrence may get none.
- Overshoot.DailyMaximum: the maximum is not stated when there is a quota below the daily limit; `DailyOvershoot` bounds that case too.
- Overshoot.MonthlyMaximum: the maximum is not stated when there is a daily limit below the quota; `MonthlyOvershoot` bounds that case too.
- ScheduledRows.SplitToggleFiresTwice: the owner of the device is worker 0 in this run and in that of `DisabledRowFires`; the numbering of workers carries no meaning.
- Messages.DailyOvershoot: plans do not change during a run, and the server's day has a fixed offset from UTC (no daylight saving). What is counted are rows, as the source does. A limit of 0 is no limit.
- MessagesQueue.MessagesProcessor.Process: other slots' steps are a parameter, and so are what the device row and the socket answer. The contact upsert, webhook deliveries and realtime events after the SENT write are not in it; progress of a broadcast is in `Broadcasts`. Delays of jobs are not modelled: a slot may take any job of the queue.
- Broadcasts.BroadcastRows.Process: what the contact lookups and `randomDelay` return, and the steps of the message jobs, are parameters.
- Broadcasts.FinalTotals: a broadcast is started once and no message of it is retried; a second start or a retried failure counts again. Broadcast messages that fail to be queued are not modelled.
- Receipts.MessageTable.OnMessagesUpdate: handlers of one device run one after the other; `findFirst` is taken to return the first row.
- Sessions.SessionManager.ConnectDevice: `connect` is one step, so two overlapping calls for a device are excluded. Worker i has shard id i of N.
- Sessions.SessionManager.OnModuleInit: as a method, the restore loop runs alone; in the state machine the list is read in one step and each device restored in another, at any later time.
- AuthStore.RoundTripIffClean: trees are JSON's values plus byte arrays; `undefined`, dates, the key `__proto__`, key types and ids such as `constructor` that name inherited members, and the loss of precision of JSON numbers are not in them. `JSON.stringify` and `JSON.parse` are the identity on trees.
- AuthStore.AuthState.Get: the protocol's `fromObject` is a parameter, and values are copied, not shared with the caller.
- AuthStore.AuthState.constructor: a stored row that does not read back as credentials and type maps is excluded, such as one whose type map looks like encoded bytes; a reader of the source would then index into a byte array. By `ReloadIffClean` no clean save leaves such a row.
- RateLimiter.Middleware.Handle: the client address is given, and entries of the map are never evicted, as in the source.
- Webhooks.RunConsistent: the HTTP call and its signature are parameters; the queue runs at least one attempt, and its own back-off timing is not modelled.
- Ocr.LabelledAmountReadsBack: values are exact rationals; `parseFloat` rounds to a double. The two fallback stages of `parseAmount`, confidence and comparison with an order are left out: they run only when the labelled stage finds nothing.
- `readShardConfig`: the two numbers are given; an environment value that is no number is not modelled.
- Job stalls, database errors and retries of jobs by thrown errors. A job put back by `moveToDelayed` is a job that stays in the queue.
- Message recipients, types, contents and media, workspace membership checks, audit logs, contact lists, auto-replies, orders, payments and subscriptions: they would add easy members.
- History fields have no counterpart in the source: a message's schedule and occurrence in `Scheduler`, late counts in `Broadcasts`, opened and gone sockets in `Sessions`, epochs and the log in `RateLimiter`.
