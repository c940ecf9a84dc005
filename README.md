# APubSub core, modelled in Dafny

APubSub is a publish/subscribe library. Messages are sent to channels.
Subscriptions attach to channels and receive the messages sent while they
are active. Subscribers group subscriptions, one per channel.

This project models:

- the in-memory backend: the shared store `MemoryContext`, the backend facade
  `MemoryPubSub` and `MemorySubscriber`;
- the message object `DefaultMessage`;
- the cursor protocol: `AbstractCursor` and its Drupal 7 query-backed
  subclass `AbstractD7Cursor`;
- the batch helper `CursorWorker`;
- the notification layer: `Notification`, `FormatterRegistry`, and the
  Drupal 7 `DefaultChannelType` and `AbstractFormatter`.

Objects whose fields the code updates are classes with `modifies` frames.
Pure logic is functions and lemmas. PHP exceptions are `Result`/`Outcome`
values (module `Wrappers`). PHP values (null, booleans, integers, strings,
string-keyed arrays) and the PHP conversions the code relies on are in
module `PhpValues`: truthiness, `isset`, string conversion, integer strings
and `trim`.

The message log of `MemoryContext` is an ordered PHP array keyed by message
id. It is modelled as a sequence with distinct ids (module `MessageLog`). A
keyed write replaces the entry in place or appends it, and `unset` removes
it.

Collaborators the shown code only calls are parameters:

- what a subscription's own `fetch()` returns;
- the Drupal query's execution and count;
- the sort-column mapping;
- `time()`, `memory_get_usage()` and the `memory_limit` and
  `max_execution_time` settings;
- the rendering a formatter returns;
- which class names exist.

## Model

| member | source | states |
|---|---|---|
| Memory.MemoryContext.constructor | src/APubSub/Backend/Memory/MemoryContext.php:50-57 | A new store is empty, with both identifier sequences at 0 |
| Memory.MemoryContext.GetNextMessageIdentifier | src/APubSub/Backend/Memory/MemoryContext.php:101-104 | Returns the sequence plus one and advances it; the id was never issued before |
| Memory.MemoryContext.GetNextSubscriptionIdentifier | src/APubSub/Backend/Memory/MemoryContext.php:111-114 | The same for subscriptions, on a sequence independent of the message one |
| Memory.MemoryContext.AddMessage | src/APubSub/Backend/Memory/MemoryContext.php:121-124 | The log becomes the keyed write of the message: an existing id is replaced in place, a new one appended; ids stay distinct |
| MessageLog.StoreById | src/APubSub/Backend/Memory/MemoryContext.php:123 | The keyed write keeps ids distinct and adds exactly the new id; other entries are kept; the length grows only for a new id |
| MessageLog.RemoveByIdMembers | src/APubSub/Backend/Memory/MemoryContext.php:155 | The unset keeps exactly the entries under other ids |
| Memory.MemoryContext.GetMessageListFor | src/APubSub/Backend/Memory/MemoryContext.php:137-163 | As written: the result is what a scan of the first ScannedAsWritten entries (in log order or reversed) hands out; the log is consumed by exactly that scan |
| Memory.MemoryContext.ScanAsWritten | src/APubSub/Backend/Memory/MemoryContext.php:139-160 | The counting loop as written: it hands out what the first ScannedAsWritten entries of the scan order owe, and leaves the log consumed by exactly those entries |
| Memory.MemoryContext.ScanStep | src/APubSub/Backend/Memory/MemoryContext.php:151-158 | Scanning entry k after the first k extends both the hand-out and the consumed log to the first k + 1 entries |
| Memory.MemoryContext.ScanEntry | src/APubSub/Backend/Memory/MemoryContext.php:151-158 | One message: the log gets its keyed write (nothing, an unset once consumed, an update otherwise) and the hand-out is its share |
| Memory.AsWrittenScan | src/APubSub/Backend/Memory/MemoryContext.php:149-150 | As written, any limit of at least 1 hands out nothing and leaves the log unchanged; no limit, or one of 0 or less, scans the whole log |
| Memory.LimitDefect | src/APubSub/Backend/Memory/MemoryContext.php:149-150 | A one-message log with limit 1 hands out nothing as written and that message as intended |
| Memory.MemoryContext.GetMessageListForIntended | src/APubSub/Backend/Memory/MemoryContext.php:134-163 | With the limit counting scanned entries: the result and the new log are those of a scan of at most limit entries |
| Memory.MemoryContext.ScanIntended | src/APubSub/Backend/Memory/MemoryContext.php:139-160 | With the guard `++$i > $limit`, the loop hands out what the first ScannedIntended entries owe and consumes only those |
| Memory.ScannedIntended | src/APubSub/Backend/Memory/MemoryContext.php:134 | The intended scan length is at most the log size and at most the limit; without a limit, or with one at least the size, it is the whole log. With Deliver's bound, a limited scan therefore hands out at most limit messages |
| MessageLog.Deliver | src/APubSub/Backend/Memory/MemoryContext.php:148-160 | The hand-out is no longer than the scan |
| MessageLog.DeliverContents | src/APubSub/Backend/Memory/MemoryContext.php:151-158 | Every handed-out message comes from the scan, owed to one of the ids, with the ids removed. Every scanned message owed to one of them is handed out |
| MessageLog.DeliveredAreServed | src/APubSub/Backend/Memory/MemoryContext.php:153 | A handed-out message no longer owes anything to the subscriptions served |
| MessageLog.DeliverAppend | src/APubSub/Backend/Memory/MemoryContext.php:148-160 | Scanning a concatenation hands out the two hand-outs in order |
| MessageLog.DeliverReverse | src/APubSub/Backend/Memory/MemoryContext.php:142-146 | Scanning backwards hands out the same messages in the opposite order |
| MessageLog.DeliverNothing | src/APubSub/Backend/Memory/MemoryContext.php:151 | A scan where nothing is owed to the ids hands out nothing |
| MessageLog.ReverseSameMessages | src/APubSub/Backend/Memory/MemoryContext.php:143 | array_reverse keeps the same messages, the same ids, and distinct ids |
| MessageLog.ConsumeSomeMembers | src/APubSub/Backend/Memory/MemoryContext.php:151-156 | What a partial scan leaves is made of log messages, left alone or with the ids removed; it is no longer than the log and keeps ids distinct |
| MessageLog.ConsumeSomeAgree | src/APubSub/Backend/Memory/MemoryContext.php:151 | Only scanned messages owed to the ids affect the log |
| MessageLog.ConsumeStep | src/APubSub/Backend/Memory/MemoryContext.php:151-156 | Scanning one more message does nothing if it is owed nothing, unsets it once consumed, and otherwise updates it in place |
| MessageLog.ScanAdvance | src/APubSub/Backend/Memory/MemoryContext.php:148-160 | One loop step: the hand-out grows by the next message's share, and the log by that message's keyed write |
| MessageLog.ConsumeRules | src/APubSub/Backend/Memory/MemoryContext.php:151-156 | After a full scan: messages owed nothing are unchanged; the others are there with the ids removed; a message's id is gone exactly when it was owed to the ids and is now consumed; ids stay distinct |
| MessageLog.ConsumeKeepsSettled | src/APubSub/Backend/Memory/MemoryContext.php:151-156 | Everything the settling of a scanned message keeps is still in the log |
| MessageLog.ConsumeDropsSettled | src/APubSub/Backend/Memory/MemoryContext.php:154-155 | A message its settling drops leaves no entry with its id |
| MessageLog.NoRedelivery | src/APubSub/Backend/Memory/MemoryContext.php:130-131 | After a full scan, fetching again for the same ids hands out nothing |
| MessageLog.ConsumeServesAll | src/APubSub/Backend/Memory/MemoryContext.php:153 | Nothing left after a full scan is owed to the ids just served |
| MessageLog.RetainedOnlyWhilePending | src/APubSub/Backend/Memory/MemoryContext.php:130-131 | If no logged message is consumed, none the scan leaves is |
| Memory.MemoryPubSub.constructor | src/APubSub/Backend/Memory/MemoryPubSub.php:52-55 | The backend creates its own fresh, empty store |
| Memory.MemoryPubSub.GetChannel | src/APubSub/Backend/Memory/MemoryPubSub.php:69-76 | Returns the stored channel exactly when the id is present, otherwise ChannelDoesNotExist |
| Memory.MemoryPubSub.GetChannels | src/APubSub/Backend/Memory/MemoryPubSub.php:82-91 | Succeeds exactly when every listed id is a channel, with one channel per id in list order; otherwise ChannelDoesNotExist |
| Memory.MemoryPubSub.CreateChannel | src/APubSub/Backend/Memory/MemoryPubSub.php:97-108 | A new id is stored and returned. An existing one fails with ChannelAlreadyExists, or is returned unchanged when errors are ignored |
| Memory.MemoryPubSub.CreateChannels | src/APubSub/Backend/Memory/MemoryPubSub.php:114-136 | Without ignoreErrors, one existing id fails the call and nothing is created. Otherwise every listed id becomes a channel and the result holds them in order |
| Memory.WithChannelsContents | src/APubSub/Backend/Memory/MemoryPubSub.php:114-136 | After bulk creation the channel ids are the old ones plus the listed ones; old channels are kept and new ones carry their id |
| Memory.MemoryPubSub.DeleteChannel | src/APubSub/Backend/Memory/MemoryPubSub.php:142-155 | An absent id fails and changes nothing. Otherwise the channel and every subscription to it are removed, and the other subscriptions are kept |
| Memory.WithoutChannel | src/APubSub/Backend/Memory/MemoryPubSub.php:148-152 | The kept subscriptions are exactly those to other channels, unchanged |
| Memory.MemoryPubSub.GetSubscription | src/APubSub/Backend/Memory/MemoryPubSub.php:161-168 | Returns the stored subscription exactly when present, otherwise SubscriptionDoesNotExist |
| Memory.MemoryPubSub.GetSubscriptions | src/APubSub/Backend/Memory/MemoryPubSub.php:174-183 | Succeeds exactly when every listed id is stored, with one subscription per id in order; otherwise SubscriptionDoesNotExist |
| Memory.MemoryPubSub.DeleteSubscription | src/APubSub/Backend/Memory/MemoryPubSub.php:189-195 | The one-id case of DeleteEach; afterwards the subscription cannot be found |
| Memory.MemoryPubSub.DeleteSubscriptions | src/APubSub/Backend/Memory/MemoryPubSub.php:201-206 | The new subscriptions and the outcome are those of DeleteEach over the list |
| Memory.DeleteEachRules | src/APubSub/Backend/Memory/MemoryPubSub.php:189-206 | Passes exactly when the ids are distinct and all present, and then removes exactly those ids. A failure is SubscriptionDoesNotExist. The result never adds or alters a subscription |
| Memory.MemoryPubSub.GetSubscriber | src/APubSub/Backend/Memory/MemoryPubSub.php:233-240 | The first request creates and stores an empty subscriber; later ones return the same object and change nothing |
| Memory.MemorySubscriber.constructor | src/APubSub/Backend/Memory/MemorySubscriber.php:35-39 | A subscriber starts with its id, its store and no subscriptions |
| Memory.FindFor | src/APubSub/Backend/Memory/MemorySubscriber.php:65-69 | None exactly when no subscription is to the channel; otherwise it is the first one that is |
| Memory.MemorySubscriber.GetSubscriptionFor | src/APubSub/Backend/Memory/MemorySubscriber.php:63-72 | A found subscription is held and is to the channel. Failure happens exactly when none held is, and is SubscriptionDoesNotExist |
| Memory.MemorySubscriber.Subscribe | src/APubSub/Backend/Memory/MemorySubscriber.php:78-97 | An unknown channel, or one already subscribed to, fails and changes nothing. Otherwise a new active subscription with a fresh id is stored and held, and getSubscriptionFor finds it |
| Memory.MemorySubscriber.Fetch | src/APubSub/Backend/Memory/MemorySubscriber.php:103-116 | The result is, as a multiset, the union of every subscription's fetch, sorted by ascending id |
| Memory.MergedIsFetchedBag | src/APubSub/Backend/Memory/MemorySubscriber.php:107-109 | The array_merge loop loses and invents no message |
| Memory.FetchedBagAppend | src/APubSub/Backend/Memory/MemorySubscriber.php:107-109 | One more subscription adds its fetch to the union |
| MessageLog.SortByIdSorted | src/APubSub/Backend/Memory/MemorySubscriber.php:111-113 | Sorting by id gives an ascending permutation of the input |
| MessageLog.InsertByIdSorted | src/APubSub/Backend/Memory/MemorySubscriber.php:111-113 | Inserting into an ascending list keeps it ascending |
| MessageLog.InsertByIdPermutes | src/APubSub/Backend/Memory/MemorySubscriber.php:111-113 | Insertion adds exactly the inserted message |
| Messages.DefaultMessage.constructor | src/APubSub/Backend/DefaultMessage.php:94-116 | Every field takes its argument. Type, unread flag, read timestamp and level default to null, true, null and 0 |
| Messages.DefaultMessage.SetUnread | src/APubSub/Backend/DefaultMessage.php:149-161 | The new read state is that of SetUnreadAsWritten in every case. A forwarded call carries the subscription, message id and toggle. When the subscription is missing, the lookup (getSubscription, lines 231-234) fails with SubscriptionDoesNotExist after the timestamp has changed, and nothing is forwarded. The flag is untouched |
| Messages.SetUnreadAsWritten | src/APubSub/Backend/DefaultMessage.php:149-161 | The call is forwarded exactly when the toggle differs from the flag. A truthy toggle then clears the timestamp and a falsy one sets it to now. Otherwise nothing changes, and the flag never does |
| Messages.SetUnreadRepeats | src/APubSub/Backend/DefaultMessage.php:149-161 | As written, marking an unread message read twice forwards twice and leaves it unread |
| Messages.SetUnreadIntendedIdempotent | src/APubSub/Backend/DefaultMessage.php:149-161 | As intended, the flag takes the toggle, and repeating the call changes and forwards nothing |
| Messages.DefaultMessage.SetSendTimestamp | src/APubSub/Backend/DefaultMessage.php:177-180 | Replaces the send time only |
| Cursors.AbstractCursor.constructor | src/APubSub/Backend/AbstractCursor.php:18-48 | A new cursor has not run, has no sorts, no limit and offset 0 |
| Cursors.AbstractCursor.AddSort | src/APubSub/Backend/AbstractCursor.php:54-69 | After a run it fails with a LogicException. An unsupported field fails with InvalidArgument. Either failure changes nothing. Otherwise the field takes the direction by keyed write |
| Cursors.PutSort | src/APubSub/Backend/AbstractCursor.php:67 | The keyed write keeps the length or adds one entry |
| Cursors.PutSortRules | src/APubSub/Backend/AbstractCursor.php:67 | After the write the field maps to the new direction and the other fields keep theirs. No field appears twice, and re-adding a field keeps its place |
| Cursors.FieldsOfPut | src/APubSub/Backend/AbstractCursor.php:67 | The write adds exactly the field written |
| Cursors.DirectionOfFields | src/APubSub/Backend/AbstractCursor.php:77-80 | A field has a direction exactly when it is sorted on |
| Cursors.AbstractCursor.SetLimit | src/APubSub/Backend/AbstractCursor.php:86-95 | After a run it fails and changes nothing; otherwise it sets the limit only |
| Cursors.AbstractCursor.SetOffset | src/APubSub/Backend/AbstractCursor.php:111-120 | After a run it fails and changes nothing; otherwise it sets the offset only |
| Cursors.AbstractCursor.SetRange | src/APubSub/Backend/AbstractCursor.php:126-136 | After a run it fails and changes nothing; otherwise it sets both |
| Cursors.AbstractCursor.SetHasRun | src/APubSub/Backend/AbstractCursor.php:151-154 | The cursor is marked as run |
| Cursors.LockedAfterRun | src/APubSub/Backend/AbstractCursor.php:54-136 | After setHasRun, addSort, setLimit, setOffset and setRange each fail with a LogicException. The cursor stays run, with its sorts, limit and offset unchanged |
| D7Cursors.Keyword | src/APubSub/Backend/Drupal7/Cursor/AbstractD7Cursor.php:102-104 | "asc" exactly for SORT_ASC, otherwise "desc" |
| D7Cursors.OrderClauses | src/APubSub/Backend/Drupal7/Cursor/AbstractD7Cursor.php:101-105 | One ORDER BY per sort, in sort order, on the mapped column with its keyword |
| D7Cursors.ApplySorts | src/APubSub/Backend/Drupal7/Cursor/AbstractD7Cursor.php:101-105 | The sort loop appends exactly OrderClauses to the query |
| D7Cursors.LoadsLazily | src/APubSub/Backend/Drupal7/Cursor/AbstractD7Cursor.php:109 | A zero limit loads lazily; with the threshold at PHP_INT_MAX (line 22) no other PHP integer limit does |
| D7Cursors.Prepared | src/APubSub/Backend/Drupal7/Cursor/AbstractD7Cursor.php:94-105 | The query keeps its base. With a limit set its range becomes (offset, limit), otherwise the range is untouched. The existing ORDER BY clauses stay first, followed by one per sort in sort order, on the mapped column with its keyword |
| D7Cursors.AbstractD7Cursor.constructor | src/APubSub/Backend/Drupal7/Cursor/AbstractD7Cursor.php:24-37 | Starts with no query, no result and no count |
| D7Cursors.AbstractD7Cursor.GetQuery | src/APubSub/Backend/Drupal7/Cursor/AbstractD7Cursor.php:78-85 | The query is created on first use only and reused afterwards |
| D7Cursors.AbstractD7Cursor.RunQuery | src/APubSub/Backend/Drupal7/Cursor/AbstractD7Cursor.php:90-117 | Runs once. It applies the range when a limit is set, then the sorts, and executes once. The rows are kept for lazy loading when the limit is 0 or over the threshold, for bulk loading otherwise. Later calls change nothing |
| D7Cursors.AbstractD7Cursor.GetIterator | src/APubSub/Backend/Drupal7/Cursor/AbstractD7Cursor.php:123-132 | Returns the kept result. When there was none it runs first, as RunQuery does: the query becomes the prepared one and the rows kept are its rows, lazy or bulk as the limit decides. Otherwise nothing changes |
| D7Cursors.AbstractD7Cursor.Count | src/APubSub/Backend/Drupal7/Cursor/AbstractD7Cursor.php:138-143 | The number of kept rows. When there was no result it runs first, as RunQuery does, so the number is that of the rows the prepared query yields. Otherwise nothing changes |
| D7Cursors.CountFreshCursor | src/APubSub/Backend/Drupal7/Cursor/AbstractD7Cursor.php:138-143 | On a cursor that has not run, count() is the number of rows of the created query with the range and sorts applied |
| D7Cursors.AbstractD7Cursor.GetTotalCount | src/APubSub/Backend/Drupal7/Cursor/AbstractD7Cursor.php:149-163 | Memoized. The first call counts the query as it then stands, creating it if need be; later calls return the same number |
| D7Cursors.CountTwice | src/APubSub/Backend/Drupal7/Cursor/AbstractD7Cursor.php:138-143 | Two counts agree |
| Workers.CreateWorker | src/APubSub/Helper/CursorWorker.php:36-46 | A callback that is not callable is refused with InvalidArgument, otherwise a fresh worker over the cursor is made |
| Workers.CursorWorker.constructor | src/APubSub/Helper/CursorWorker.php:36-46 | The worker starts at the cursor's start with nothing processed |
| Workers.CursorWorker.ProcessSingle | src/APubSub/Helper/CursorWorker.php:54-62 | As intended, reading the item at the pointer before stepping (see Findings for line 56): true exactly when that item exists and is truthy; then the callback gets that item once and the pointer moves one on. Otherwise nothing is called |
| Workers.ParseMemoryLimit | src/APubSub/Helper/CursorWorker.php:73-97 | After trimming, the setting means no limit exactly when it is the integer -1, or not an integer and either empty or ending in something other than k, m or g (any case). An integer setting reads as its value; a setting with a unit reads as a multiple of 1024 |
| Workers.ParseWithUnit | src/APubSub/Helper/CursorWorker.php:77-90 | An integer followed by k, m or g in either case reads as that many KiB, MiB or GiB (the fall-through multiplies by 1024 per level) |
| Workers.ParsePlain | src/APubSub/Helper/CursorWorker.php:73-77 | A plain integer reads as itself, except -1, which means no limit |
| Workers.ParseOtherUnit | src/APubSub/Helper/CursorWorker.php:92-93 | Any other last character means no limit |
| Workers.MemoryBudget | src/APubSub/Helper/CursorWorker.php:98-101 | No limit stays none. Otherwise the budget is floor(85% of the limit): non-negative and not above a non-negative limit |
| Workers.TimeDeadlineAsWritten | src/APubSub/Helper/CursorWorker.php:106 | The deadline is now plus floor(80% of max_execution_time), no later than now plus the setting |
| Workers.TimeDeadline | src/APubSub/Helper/CursorWorker.php:106 | As intended: no deadline exactly when the setting is 0, otherwise the as-written one |
| Workers.Run | src/APubSub/Helper/CursorWorker.php:108-121 | A run never moves the cursor past the end and never hands out more than the cursor gave; a stopped run has handed out everything the cursor gave |
| Workers.RunHandlesTruthy | src/APubSub/Helper/CursorWorker.php:54-62 | A run hands out truthy items only. A complete run ends at the end of the cursor, or at the first falsy item with the cursor moved past it |
| Workers.RunWithinBudget | src/APubSub/Helper/CursorWorker.php:64-70 | If no check finds a budget exceeded, the run completes |
| Workers.RunStopsAtCheck | src/APubSub/Helper/CursorWorker.php:110-116 | A run stops early only at an iteration numbered by a multiple of 50 whose check finds a budget exceeded |
| Workers.BlindRun | src/APubSub/Helper/CursorWorker.php:12-15 | A run that ends within the first 49 iterations completes whatever the budgets |
| Workers.CursorWorker.Process | src/APubSub/Helper/CursorWorker.php:71-122 | As documented, with processSingle in the loop and a max_execution_time of 0 read as no deadline (the corrections of lines 118 and 106, see Findings): the answer, the cursor position and the items handled are those of Run under the parsed budgets |
| Workers.CursorWorker.ProcessWithin | src/APubSub/Helper/CursorWorker.php:108-121 | With the limits known, the loop's answer, cursor position and items handled are those of Run |
| Workers.ProcessAsWritten | src/APubSub/Helper/CursorWorker.php:108-122 | As written, every call ends in a stack overflow. This is an exhibit, not a deep proof: the model has no path that returns, because at line 110 iteration 1 is no multiple of 50, so the recursive call at line 118 comes before any check or return |
| Workers.NextAsWritten | src/APubSub/Helper/CursorWorker.php:56 | next() moves the internal pointer first and then gives the value it lands on, or false past the end. The values stand for the cursor object's property table, which is what next() walks on an object |
| Workers.FirstItemSkipped | src/APubSub/Helper/CursorWorker.php:56 | As written, truthy values from pointer p on are handed out from the one after p, never the one at p, so from a fresh start the first is skipped |
| Workers.ZeroTimeLimitStops | src/APubSub/Helper/CursorWorker.php:106 | As written, a max_execution_time of 0 stops a run over 50 truthy items at iteration 50 once the clock has moved |
| Workers.ZeroTimeLimitIntended | src/APubSub/Helper/CursorWorker.php:106 | As intended, a setting of 0 with no memory limit never stops a run |
| Notifications.Extract | src/APubSub/Notification/Notification.php:95-108 | Valid exactly when 'i' and 'd' are set. Invalid contents leave data, source id and rendering null. Valid contents give data and source id from 'd' and 'i', and the rendering from 'f' |
| Notifications.ExtractWrap | src/APubSub/Notification/Notification.php:95-108 | An envelope with non-null source id and data extracts back to exactly what was wrapped |
| Notifications.Notification.constructor | src/APubSub/Notification/Notification.php:88-109 | The notification keeps its message and holds the envelope extracted from its contents |
| Notifications.Get | src/APubSub/Notification/Notification.php:166-173 | Not null exactly when data is an array with that key set |
| Notifications.GetIsIndex | src/APubSub/Notification/Notification.php:166-173 | get() reads the same as a plain index that reads null when missing |
| Notifications.Notification.Format | src/APubSub/Notification/Notification.php:180-191 | A kept rendering is returned without asking the formatter. Otherwise the formatter is asked once and its answer kept |
| Notifications.FormatTwice | src/APubSub/Notification/Notification.php:105-107 | A rendering under 'f' is what format() returns, both times; a non-null first answer is returned again |
| Registries.CreateNullInstance | src/APubSub/Notification/Registry/FormatterRegistry.php:16-19 | The fallback is `new NullFormatter()`, built without a type or description; no registered data gives this argumentless construction, since data always becomes `new $class(type, description, group)` |
| Registries.GetInstanceFromData | src/APubSub/Notification/Registry/FormatterRegistry.php:34-59 | A success is always `new $class(type, description, group)` with the given type and a non-empty class name |
| Registries.MissingClassFails | src/APubSub/Notification/Registry/FormatterRegistry.php:39-53 | Array data without a 'class' entry reads a null class, and `class_exists('')` is false, so it fails with a LogicException |
| Registries.InstanceRules | src/APubSub/Notification/Registry/FormatterRegistry.php:34-59 | Data that is neither array nor string is an invalid argument. For an array or a string, success happens exactly when the class exists, else there is a LogicException. The class, description and group are those the shape gives |
| Registries.RegistrationRoundTrip | src/APubSub/Notification/Registry/FormatterRegistry.php:39-58 | A registration array for an existing class gives back an instance with that class, description and group |
| ChannelTypes.LabelsDistinguishIds | external/drupal-7.x/apb7_follow/lib/Apb/Notification/ChannelType/DefaultChannelType.php:65-72 | Under one type and description, different integer ids get different labels |
| ChannelTypes.SubscriptionLabel | external/drupal-7.x/apb7_follow/lib/Apb/Notification/ChannelType/DefaultChannelType.php:65-72 | The label is the description, or the type when the description is null, then " #", then the id as PHP converts it to a string |
| ChannelTypes.LabelOfUnique | external/drupal-7.x/apb7_follow/lib/Apb/Notification/AbstractFormatter.php:53-60 | That layout fixes the label: one name and one id give one text |
| ChannelTypes.DefaultChannelType.GetSubscriptionLabel | external/drupal-7.x/apb7_follow/lib/Apb/Notification/ChannelType/DefaultChannelType.php:65-72 | The channel type's label is its description, or its type when the description is null, then " #" and the id |
| ChannelTypes.Formatter.GetSubscriptionLabel | external/drupal-7.x/apb7_follow/lib/Apb/Notification/AbstractFormatter.php:53-60 | The formatter's label is its description, or its type when the description is null, then " #" and the id |
| ChannelTypes.NewChannelType | external/drupal-7.x/apb7_follow/lib/Apb/Notification/ChannelType/DefaultChannelType.php:27-32 | The fields are the arguments; visibility defaults to true |

## Left out

- I/O, the clock and the environment: `time()`, `memory_get_usage()` and `ini_get()` are parameters. The Drupal database (query building, `execute`, `countQuery`, `fetchCol`) is an opaque query value plus functions for its rows and count.
- Collaborators not part of this model: MemoryChannel, MemorySubscription, MemoryMessage, ApplyIteratorIterator, AbstractRegistry, NullFormatter and the cursors' concrete subclasses.
  - A message is its id and pending subscription set; hasSubscribersIn, removeSubscriptionIds and isConsumed are read as set operations.
  - MemoryChannel::subscribe and MemorySubscription::activate are the stand-ins Memory.MemoryContext.CreateSubscription and Memory.MemoryContext.ActivateSubscription.
  - A subscription's own fetch() is a parameter of Fetch.
- Messages are values. PHP shares message objects between the log and the returned list; the model does not capture that aliasing.
- Memory.MemorySubscriber.Fetch: uasort's order among messages with equal ids is not stated. Array keys, which uasort keeps, are not modelled.
- Plain getters are field reads, with no member of their own: getId, getSubscriptions, getContents, getSorts, getLimit, hasRun and the like. This includes Notification's getMessageId, getType and getLevel, which read the message, and AbstractFormatter's getImageURI, which returns null. FormatterRegistry's getDefaultClass returns null: there is no default formatter class, and AbstractRegistry, which would use it, is not part of this model.
- MemoryPubSub: getAnalysis, fetchSubscribers, setOptions/getOptions, flushCaches and garbageCollection are not modelled. They are diagnostics, unimplemented, or do nothing.
- Memory.WithoutChannel: deleteChannel also unsets channelMessages and subscriptionMessages entries, which the store never fills. Those unsets are not modelled.
- Cursors.AbstractCursor.AddSort: `in_array` compares loosely; the model compares field names exactly. The default direction, SORT_ASC, is not a default parameter.
- CursorInterface::LIMIT_NONE and SORT_ASC are not part of this model. They are constants passed to the cursor's constructor.
- D7Cursors.AbstractD7Cursor.Count: count() on a lazily loaded result is taken to be the number of rows.
- D7Cursors.AbstractD7Cursor.RunQuery: runQuery never calls setHasRun, so the cursor stays open to changes after it has run. The model keeps that behaviour and does not claim otherwise.
- Workers.MemoryBudget: floor(v * 0.85) and floor(m * 0.80) are computed exactly in integers. The float products can differ from the exact value by one where they round.
- Workers.ParseMemoryLimit: only integer settings and integer prefixes are modelled. Decimal and exponent forms that PHP also treats as numeric (such as "1.5G" or "1e9") are not. A unit letter with no digits before it reads as 0, as in PHP 7; PHP 8 throws instead. The default branch at CursorWorker.php:94 ends in `brea;`, a typo for `break;`. In PHP 7 it reads an undefined constant, which only warns, and as the last statement of the switch it changes nothing. In PHP 8 it throws an `Error`, so a setting that is empty or ends in something other than k, m or g makes process() throw. The model follows PHP 7 and reads such a setting as no limit.
- Workers.CursorWorker.ProcessSingle: models the corrected read: the cursor's item at the pointer, then a step. What the code as written does is different. `$this->cursor` is always an object, as the `CursorInterface` type hint at CursorWorker.php:36 requires. `next()` on an object steps through the object's property table, in every PHP version that accepts the call (8.1 only deprecates it), and it steps before it reads. So the callback gets the cursor object's property values from the second on, never the cursor's items. Workers.NextAsWritten and Workers.FirstItemSkipped model only the step-first half, over a sequence of values that stands for that table. The model does not describe the cursor object's properties.
- Workers.ProcessAsWritten: the iterations after a nested call returns are not modelled, because that call never returns.
- Notifications: the private `$level = LEVEL_INFO` default is never read, since getLevel delegates to the message. The level constants 0, 1 and 10 are declared but nothing is proved about them.
- Notifications.Notification.Format: the formatter's answer is a parameter. A null answer is not kept, so the formatter is asked again; "at most once" holds only for non-null answers.
- Notifications: getImageUri on the notification delegates to the registry and is not modelled.
- Registries.GetInstanceFromData: `class_exists` is a parameter applied to the class name as a string, with the empty name never a class, as in PHP. The registry lookup and fallback of AbstractRegistry are not part of this model.
- Registries.CreateNullInstance: the model keeps the fallback (`new NullFormatter()`) apart from any instance built from data. In PHP, data naming the NullFormatter class gives `new NullFormatter($type, $type, null)`, an object of the same class, and a caller that only checks the class cannot tell the two apart. The model does not capture that.
- The Drupal user notification type and the test harnesses are not modelled. A few test scenarios are restated as verified methods: Memory.ChannelCreationScenario, Memory.BulkCreationScenario, Memory.BulkIgnoringErrorsScenario and Memory.DeleteScenario.

## Findings

| source | as written | input that shows it | evidently intended | confidence | as-written member | corrected member |
|---|---|---|---|---|---|---|
| src/APubSub/Backend/Memory/MemoryContext.php:149 | `++$i <= $limit` breaks out of the loop on the first entry for any limit of at least 1 | a log of one message owed to subscription 7, limit 1: nothing is returned | stop once more than limit entries have been scanned (`++$i > $limit`). The doc comment at line 134 also reads as capping the messages returned. Entries scanned is chosen because it needs only the guard flipped: the counter goes up on every entry, before the owed test, and a cap on matches would mean moving the increment | not executed; high | Memory.LimitDefect | Memory.MemoryContext.GetMessageListForIntended |
| src/APubSub/Backend/DefaultMessage.php:149-161 | setUnread updates the read timestamp and notifies the subscription, but never assigns `$this->unread` | an unread message marked read twice: the call is forwarded twice and the message stays unread | the flag takes the toggle, so a repeated call does nothing | not executed; high | Messages.SetUnreadRepeats | Messages.SetUnreadIntendedIdempotent |
| src/APubSub/Helper/CursorWorker.php:118 | the loop calls `$this->process()` instead of `$this->processSingle()` | any cursor: every call recurses at iteration 1, before any check, until the stack runs out | call processSingle() and return true when it reports no item | not executed; high | Workers.ProcessAsWritten | Workers.CursorWorker.Process |
| src/APubSub/Helper/CursorWorker.php:56 | processSingle() reads the cursor with `next()`, which steps before it reads and, on the cursor object that the constructor's type hint requires, walks the object's property table | any cursor: the callback gets the cursor object's property values from the second on, never the cursor's items; over the sequence that stands for that table, the first value is skipped | read the cursor's current item, then advance | not executed; medium | Workers.FirstItemSkipped | Workers.CursorWorker.ProcessSingle |
| src/APubSub/Helper/CursorWorker.php:106 | a max_execution_time of 0 (no limit, the command-line default) puts the deadline at the start time | max_execution_time 0, 60 truthy items, clock one second later at iteration 50: the run stops | treat 0 as no time limit; Workers.CursorWorker.Process uses this corrected deadline (Workers.TimeDeadline) | not executed; medium | Workers.ZeroTimeLimitStops | Workers.ZeroTimeLimitIntended |
