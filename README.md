# Messaging lifecycle rules, modelled in Dafny

This project models the core of a small Django messaging backend.

- **The messaging app's store.** It has four tables: users, messages, message edit history and notifications. Three signal handlers keep the derived rows in step with the messages and users:
  - `edit_message` (pre_save) writes a history row holding the old content when a save changes a message's content, and marks the message edited;
  - `new_message` (post_save) creates a notification when a message is inserted;
  - `user_data_cleanup` (post_delete on a user) deletes the user's messages, history rows and notifications.

  The schema's own `on_delete` rules run alongside them. CASCADE applies to a message's sender, to history, to notifications and to `parent_message` replies. SET_NULL applies to a message's receiver and a notification's sender. The schema also fixes the field defaults, the notification-type choices and the default newest-first orderings.
- **The chats app's participant permission.** `has_permission` requires an authenticated user. `has_object_permission` decides by participants, or by sender/receiver, and by HTTP method.
- **The chats app's serializers.** These cover the message-body validator, which rejects bodies that `str.strip()` empties, and the oldest-first message listing of a conversation.
- **The user-data streaming exercise.** This is the generator that cuts the rows of a cursor into batches of `batch_size`, and the consumer that prints the users older than 25.

Modules:

- `Wrappers` (wrappers.dfy) holds `Option` and `Result`.
- `Collections` (collections.dfy) holds the generic sequence and map operations the rest is written with. These are filters, the concatenation of batches, and a sort by an integer key (rows with equal keys come out in no promised order).
- `Models` (models.dfy) holds the rows, defaults, choices and orderings of `messaging/models.py`. It also holds the effect of its `on_delete` rules as functions on the tables, and the referential-integrity invariant.
- `Signals` (signals.dfy) holds the class `Store`. Its methods are the three handlers, `save()` and the deletes. The module also has the handler's filters as a function of the tables, and lemmas about a message's edit trace over successive saves.
- `Permissions` (permissions.dfy), `ChatSerializers` (chat_serializers.dfy) and `BatchProcessing` (batch_processing.dfy) model the remaining three source files.

Modelling choices:

- The database is in memory and every statement commits on its own. Dates written by `auto_now_add` are readings of a clock that each stamped insert (a message, a history row or a notification) advances. Notification `uuid4` keys are drawn from a counter.
- Message keys are positive integers, as Django's auto-increment keys are, so `if instance.pk` is the test for a stored key.
- The delete of a message (or a set of messages) removes the reply closure of its `parent_message` links. This closure is computed as a fixpoint over sets of keys, because nothing in the schema stops a parent chain from looping back.
- Deleting a user applies the `on_delete` rules first and then runs `user_data_cleanup`, which is the order Django uses. `CleanupAfterOnDeleteIsNoOp` proves that the handler's explicit deletes then find nothing left to delete.

## Model

| member | source | states |
|---|---|---|
| Models.ParseNotificationType | Django-signals_orm-0x04/messaging/models.py:39-44 | a stored code parses to a choice exactly when it is that choice's code |
| Models.NotificationTypeCodes | Django-signals_orm-0x04/messaging/models.py:39-44 | the three codes are distinct, fit the 20-character column and parse back to their choice |
| Models.NewInstance | Django-signals_orm-0x04/messaging/models.py:10-11 | a new message object has no key and `edited` and `is_read` false, with the given sender, receiver, content and parent |
| Models.InsertedRow | Django-signals_orm-0x04/messaging/models.py:12 | an inserted row is stamped with the current time (`auto_now_add`) |
| Models.UpdatedRow | Django-signals_orm-0x04/messaging/models.py:12 | an update keeps the row's original timestamp and takes content and `edited` from the object |
| Models.MessageNotification | Django-signals_orm-0x04/messaging/models.py:34-47 | the notification `new_message` creates references the message, is unread, has no recipient or sender, and its type is none of the choices |
| Models.MessagesNewestFirst | Django-signals_orm-0x04/messaging/models.py:18-19 | a message query lists the same messages, non-increasing by timestamp |
| Models.NotificationsNewestFirst | Django-signals_orm-0x04/messaging/models.py:48-49 | a notification query lists the same notifications, non-increasing by `created_at` |
| Models.AbsentUserUnreferenced | Django-signals_orm-0x04/messaging/models.py:7-8 | in tables whose foreign keys all resolve, a user with no row is named by no row |
| Models.CascadeClosure | Django-signals_orm-0x04/messaging/models.py:13 | the messages a delete removes contain the roots, are stored messages, and include every reply of a removed message |
| Models.CascadeClosureLeast | Django-signals_orm-0x04/messaging/models.py:13 | the cascade removes no more than any reply-closed set holding the roots |
| Models.CascadeClosureEmpty | Django-signals_orm-0x04/messaging/models.py:13 | deleting no message cascades to no message |
| Models.WithMessagesDeleted | Django-signals_orm-0x04/messaging/models.py:13 | a message delete keeps the users, removes the roots, and leaves every surviving message unchanged |
| Models.WithMessagesDeletedSpec | Django-signals_orm-0x04/messaging/models.py:13-36 | a message delete removes no more than any reply-closed set holding the roots; it keeps exactly the history rows and notifications that are not about a deleted message, unchanged; and it leaves no surviving reply without its parent |
| Models.WithMessagesDeletedConsistent | Django-signals_orm-0x04/messaging/models.py:7-36 | a message delete keeps every foreign key resolving |
| Models.NullReceiver | Django-signals_orm-0x04/messaging/models.py:8 | SET_NULL on `receiver`: the same messages; a message received by the user has only its receiver set to NULL, and every other message is unchanged |
| Models.NullNotificationSender | Django-signals_orm-0x04/messaging/models.py:35 | SET_NULL on a notification's `sender`: the same notifications; one sent by the user has only its sender set to NULL, and every other one is unchanged |
| Models.OnDeleteUser | Django-signals_orm-0x04/messaging/models.py:7-35 | the `on_delete` rules of a user delete remove exactly that user from the users (the other tables: `OnDeleteUserSpec`) |
| Models.OnDeleteUserSpec | Django-signals_orm-0x04/messaging/models.py:7-36 | a user delete keeps exactly the messages outside the cascade of those the user sent, with a receiver equal to the user nulled; exactly the history rows neither edited by the user nor about a deleted message; and exactly the notifications neither to the user nor about a deleted message, with a sender equal to the user nulled |
| Models.OnDeleteUserMessagesClean | Django-signals_orm-0x04/messaging/models.py:7-8 | after a user delete, no message names the user, and every message's keys resolve |
| Models.OnDeleteUserHistoryClean | Django-signals_orm-0x04/messaging/models.py:26-29 | after a user delete, no history row was edited by the user, and each row's message and editor exist |
| Models.OnDeleteUserNotificationsClean | Django-signals_orm-0x04/messaging/models.py:34-36 | after a user delete, no notification is to or from the user, and each one's keys resolve |
| Models.OnDeleteUserClean | Django-signals_orm-0x04/messaging/models.py:7-36 | a user delete keeps the tables consistent and leaves no row naming the user |
| Models.OnDeleteUserSentVersusReceived | Django-signals_orm-0x04/messaging/models.py:7-8 | a message the user sent is deleted; one they received, outside the reply cascade, survives with `receiver` nulled and nothing else changed |
| Signals.SentOrReceivedBy | Django-signals_orm-0x04/messaging/signals.py:27 | the handler's message filter matches exactly the messages whose sender or receiver is the user |
| Signals.CleanupFilters | Django-signals_orm-0x04/messaging/signals.py:25-29 | the handler's three deletes keep the users and leave no row naming the user |
| Signals.CleanupFiltersSpec | Django-signals_orm-0x04/messaging/signals.py:27-29 | after its message delete, the handler keeps exactly the history rows the user did not edit and the notifications neither to nor from the user, each unchanged |
| Signals.CleanupMessageScope | Django-signals_orm-0x04/messaging/signals.py:27 | the handler deletes a message exactly when it lies in the reply cascade of the user's messages; other users' messages outside it survive unchanged |
| Signals.WithNoMessagesDeleted | Django-signals_orm-0x04/messaging/models.py:13-36 | deleting an empty set of messages changes no table |
| Signals.CleanupOfUnreferencedIsNoOp | Django-signals_orm-0x04/messaging/signals.py:25-29 | on tables where no row names the user, the handler changes nothing |
| Signals.CleanupAfterOnDeleteIsNoOp | Django-signals_orm-0x04/messaging/signals.py:25-29 | run after the `on_delete` rules of the same user delete, the handler changes nothing |
| Signals.Runs | Django-signals_orm-0x04/messaging/signals.py:17 | collapsing equal neighbours gives a sequence no longer than the input, starting with the same content, in which no two neighbours are equal |
| Signals.RunsCountChanges | Django-signals_orm-0x04/messaging/signals.py:17 | the collapsed sequence has one element more than the number of neighbour changes in the input |
| Signals.SnapshotsReconstructEdits | Django-signals_orm-0x04/messaging/signals.py:15-22 | over successive saves, the history contents (each the old content) followed by the current content are the message's content sequence with unchanged saves collapsed |
| Signals.SnapshotsCountChanges | Django-signals_orm-0x04/messaging/signals.py:15-22 | the number of history rows equals the number of saves that changed the content (neighbour changes in the content sequence) |
| Signals.SnapshotsAppend | Django-signals_orm-0x04/messaging/signals.py:15-22 | the history of two runs of saves is the history of the first followed by that of the second |
| Signals.SnapshotsStep | Django-signals_orm-0x04/messaging/signals.py:17-22 | one more save adds the old content to the history exactly when it changes the content |
| Signals.RepeatedSaveIsNoOp | Django-signals_orm-0x04/messaging/signals.py:17 | saving the same content twice writes no more history than saving it once |
| Signals.EditedIffHistory | Django-signals_orm-0x04/messaging/signals.py:17-23 | a message is flagged edited after a run of saves exactly when it was already flagged or the run wrote history |
| Signals.EditedAfterStep | Django-signals_orm-0x04/messaging/signals.py:17-23 | one more save leaves the message flagged edited exactly when it was already flagged or the save changes the content |
| Signals.Replayed | Django-signals_orm-0x04/messaging/signals.py:17-23 | replaying saves changes only a message's content and `edited` flag; its sender, receiver, `is_read` flag, timestamp and parent stay |
| Signals.ReplayFront | Django-signals_orm-0x04/messaging/signals.py:15-23 | the replay of a run of saves is its first save followed by the replay of the rest, for the message and for the history |
| Signals.ComposeSaves | Django-signals_orm-0x04/messaging/signals.py:15-23 | one edit's effect on the message table and history, followed by the replay of the remaining saves, is the replay of all of them |
| Signals.NotificationFanOut | Django-signals_orm-0x04/messaging/signals.py:10 | adding a notification about a message adds exactly its key to that message's notifications and to no other's |
| Signals.Store.EditMessage | Django-signals_orm-0x04/messaging/signals.py:13-23 | no key: nothing happens; a key with no row: `DoesNotExist` and nothing happens; changed content: exactly one history row is appended, holding the old content, the message's key and its sender, and the object comes back with `edited` true; same content: nothing happens |
| Signals.Store.NewMessage | Django-signals_orm-0x04/messaging/signals.py:7-10 | on an insert, exactly one notification is added, referencing the message; on an update, none |
| Signals.Store.SaveMessage | Django-signals_orm-0x04/messaging/signals.py:7-23 | an insert stores the row under a fresh key, writes no history and creates exactly one notification, the only one about the message; an update rewrites the row, sets `edited` only if the content changed, appends history only then, and creates no notification; a missing key changes nothing |
| Signals.Store.InsertRow | Django-signals_orm-0x04/messaging/models.py:6-13 | the INSERT takes the next key, which no message or notification yet uses, and stamps the clock |
| Signals.Store.UpdateRow | Django-signals_orm-0x04/messaging/models.py:6-13 | the UPDATE overwrites the row from the object and keeps the stored timestamp, as for an object fetched from the store; nothing else changes |
| Signals.Store.SaveContent | Django-signals_orm-0x04/messaging/signals.py:13-23 | loading a stored message, setting its content and saving it changes only that message's content and `edited` flag (raised exactly when the content changed) and appends one history row holding the old content, the key and the sender exactly when the content changed |
| Signals.Store.SaveContents | Django-signals_orm-0x04/messaging/signals.py:13-23 | repeated edits of a stored message append exactly the replayed history: one row per changing save, holding the old content, the message's key and its sender, in order. So the history grows by exactly the number of content-changing saves. The message ends as `Replayed` says, and no other row changes |
| Signals.Store.CreateMessage | Django-signals_orm-0x04/messaging/signals.py:7-10 | `objects.create` adds one message with `edited` and `is_read` false and the current timestamp, and changes no other message. It adds exactly one notification, under a key not used before, built as `new_message` builds it; it is the only notification about the message, and the old notifications are unchanged |
| Signals.Store.DeleteMessages | Django-signals_orm-0x04/messaging/models.py:13-36 | a message delete leaves the tables as `WithMessagesDeleted` describes, and the store stays valid |
| Signals.Store.UserDataCleanup | Django-signals_orm-0x04/messaging/signals.py:25-29 | the handler leaves the tables as `CleanupFilters` describes, with no row naming the user |
| Signals.Store.DeleteUser | Django-signals_orm-0x04/messaging/signals.py:25-29 | a user delete, consisting of the `on_delete` rules and then the handler, removes the user, leaves no row naming them and keeps the store valid |
| Permissions.HasPermission | messaging_app/chats/permissions.py:12-14 | granted exactly when a user is present and is an authenticated account |
| Permissions.IsParticipant | messaging_app/chats/permissions.py:16-24 | with participants: exactly the participating accounts; otherwise, with both sender and receiver: whoever equals one of them; otherwise no one |
| Permissions.HasObjectPermission | messaging_app/chats/permissions.py:16-29 | granted only for GET, POST, PUT, PATCH and DELETE, and for those exactly when the user participates |
| Permissions.ParticipantsTakePrecedence | messaging_app/chats/permissions.py:21-24 | when the object has participants, its sender and receiver do not affect the decision |
| Permissions.ShapelessObjectDenied | messaging_app/chats/permissions.py:19-27 | an object with neither participants nor both sender and receiver is denied to everyone |
| Permissions.OtherMethodsDenied | messaging_app/chats/permissions.py:26-29 | any other method is denied, even to a participant |
| Permissions.GrantedOnlyToParticipatingAccounts | messaging_app/chats/permissions.py:12-29 | both checks pass exactly for an authenticated account that takes part in the object, under a listed method |
| Permissions.MissingUserMatchesNullReceiver | messaging_app/chats/permissions.py:24 | taken alone, the object check admits a request with no user to a message whose receiver is NULL |
| ChatSerializers.StripLeading | messaging_app/chats/serializers.py:25 | the result is a suffix of the input; everything removed is whitespace; it does not start with whitespace |
| ChatSerializers.StripTrailing | messaging_app/chats/serializers.py:25 | the result is a prefix of the input; everything removed is whitespace; it does not end with whitespace |
| ChatSerializers.Strip | messaging_app/chats/serializers.py:25 | the result is a contiguous middle part of the input with only whitespace cut from either end, and it neither starts nor ends with whitespace |
| ChatSerializers.StripEmptyIffAllSpace | messaging_app/chats/serializers.py:25 | stripping empties a string exactly when all of its characters are whitespace |
| ChatSerializers.ValidateMessageBody | messaging_app/chats/serializers.py:23-27 | a body is accepted exactly when it has a non-whitespace character; it is then returned unchanged; otherwise the error says "Message body cannot be empty." |
| ChatSerializers.GetMessages | messaging_app/chats/serializers.py:39-42 | the conversation's messages, the same multiset, non-decreasing by `sent_at` |
| BatchProcessing.StreamUsersInBatches | python-generators-0x00/1-batch_processing.py:16-24 | the batches concatenate to the rows in order; none is empty; for a positive size, each has at most `batch_size` rows and all but the last exactly that many; for a size of zero or less, there is one batch of all rows; no rows gives no batches |
| BatchProcessing.OlderRowsOfBatch | python-generators-0x00/1-batch_processing.py:35-37 | the printed rows of one batch are exactly its rows older than 25, in order |
| BatchProcessing.ProcessBatches | python-generators-0x00/1-batch_processing.py:30-37 | the printed rows are exactly the input rows older than 25, in order, whatever the batch size |

## Left out

- `UnreadMessagesManager` (`models.py:3`, `models.py:16`): its source is not part of this model, so unread queries are not modelled. Line 15 assigns the `models.Manager` class itself, without calling it, so `Message.objects` is not a working manager. As written, the handlers' queries `Message.objects.get(...)` (`signals.py:16`) and `Message.objects.filter(...)` (`signals.py:27`) would raise instead of reading or deleting rows. The model reads line 15 as `models.Manager()`, and that failure is not modelled.
- `__str__` of both models is formatting only.
- Dates and `uuid4` keys are modelled as a counter clock and a counter. Wall-clock values, time zones and uuid randomness are not modelled.
- Models.UpdatedRow: the object's own `timestamp` attribute is not modelled. An update is taken to carry the stored value, as an object fetched from the store does. Django writes back whatever the object holds, and an object built with a key but never fetched would write NULL, which the database rejects.
- Signals.Store.UpdateRow: keeps the stored timestamp for the same reason as `Models.UpdatedRow`.
- Transactions, locking and concurrent saves are not modelled. Each statement takes effect on its own, in program order.
- Signals.Store.SaveMessage: requires that the sender, the receiver and the parent exist. The database would raise an IntegrityError for a dangling foreign key, and that error path is not modelled.
- Signals.Store.EditMessage: requires the object's sender to exist, for the same reason. The history row names that sender.
- Signals.Store.CreateMessage: requires existing sender, receiver and parent for the same reason, and always takes the insert path.
- `Notification.recipient` is declared NOT NULL (`models.py:34`). However, `new_message` creates notifications without one, and a real database would reject that insert. The model stores the notification with no recipient and does not model that rejection.
- `max_length` on `notification_type` and `title` is not enforced on writes. `NotificationTypeCodes` only shows that the three codes fit.
- `models.py:13` writes `self` and `CASCADE` bare, which would not even import. The model gives the field its evident meaning: a nullable self-reference with CASCADE. As in the code, nothing prevents a reply chain that loops back.
- In the chats permission, the user and the object are abstracted. A user is the anonymous user or an account compared by key. An object is the presence and values of `participants`, `sender` and `receiver`. `get_object()`, views and routing are left out.
- A chats-app message (`messaging_app/chats/models.py`) has a sender but no `receiver`. The permission therefore denies it to everyone, its sender included. `ShapelessObjectDenied` states this, and it is modelled as written.
- `MessageSerializer`'s `CharField` trims and rejects blank input before the validator runs. That library behaviour, and serialization to JSON, are not modelled. Only the validator itself is.
- The database connection, its failure branch (`1-batch_processing.py:9-11`), and closing the cursor and connection (lines 26-27) are I/O and not modelled. The cursor is the sequence of rows. `yield` appends a batch to the result, and `print` appends a row to the printed output.
- BatchProcessing.UserRow: `age` is an exact real number. Floating-point comparison of a non-integer age read from the database is not modelled.
- The remaining files of the repository are outside this model. These are the GitHub client tests, the sqlite context managers, the asyncio queries, the plain row streamer, the age average, and the chats views, URLs, pagination and models.
