# Message pipeline and store: model and proofs

This project models how the message bridge receives, stores, finds and sends messages, and proves
what its protocols keep over whole runs. SQLite tables are maps from id to row, SQL statements are
atomic steps, files are sequences of records, and what the outside world decides (a platform's
answer, a failed statement, a crash) is part of each step. Where the source works step by step, a
class with its fields or an array method with its loop is proved against a specification function,
and the results below are proved about that function or about runs of the steps. What the
specification functions mean is then stated once more without them, over inputs, stored columns and
events: `SignalColumns.dfy`, `StoreLaws.dfy`, and the laws named `...Exactly` and `...Columns` in the
other files.

| file | models |
|---|---|
| `ReceiveLog.dfy` | the Signal write-ahead log, its drain, the recovery queue and its replay, with process crashes |
| `SignalStore.dfy` | data messages, reactions, edits and missing-edit placeholders applied to the store |
| `SignalBatch.dfy`, `SignalReplay.dfy` | what each line of a batch does, and what a second pass over it changes |
| `SignalNames.dfy`, `SignalUnread.dfy` | the sender names and the unread counts a batch leaves |
| `SignalCrashes.dfy` | any number of crashes in a batch and in the drains that follow, also inside a line |
| `SignalProtocol.dfy` | the log and the store together: the crash points are those of the protocol's runs |
| `SignalColumns.dfy` | what a line and a batch leave in the store, column by column |
| `SignalLateTarget.dfy` | a reaction that comes before its target |
| `SignalEdits.dfy` | one original and one edit of it, over every schedule with replays of the recovery queue |
| `SignalReactions.dfy`, `ReactionHistory.dfy` | stored Signal reaction lists and what they say of their history |
| `SendKeys.dfy` | idempotency keys of outgoing sends, with concurrent requests and crashes |
| `Scheduler.dfy` | scheduled sends, with any number of workers and stale due lists |
| `MessageStore.dfy` | the messages table with its search index, legacy repair and search |
| `StoreLaws.dfy` | what each write, the repair and a search leave or find, column by column |
| `Upsert.dfy`, `Recency.dfy` | the field-wise merge on repeated ids; conversation recency and unread state |
| `Ordering.dfy`, `Paging.dfy`, `Thread.dfy` | keyset paging and the thread window |
| `Reconcile.dfy` | closing the gap to a newest-first server history |
| `Tapback.dfy`, `People.dfy`, `Status.dfy` | reaction merging, windowed de-duplication, grouped digits |
| `Text.dfy`, `Records.dfy` | trimming, text order and folding; the records of the store |

## Where the code and its promise differ

Most of these are proved as an if-and-only-if, with a run or an input that shows the failing side;
the others as an exact count, or as a family of inputs that fails.

- The comment on the receive path says the log lets a startup drain replay anything not finished
  (internal/signallive/client.go:1024-1031). The drain ignores its scanner's error and removes the
  log (1120-1140): a line that fits the scanner but not as a JSON record is lost, with every line
  after it. `ReceiveLog.ConservationExactly` states for every set of lines when runs over it are
  safe, `ReceiveLog.DrainsThatReadConserve` for every single run.
- A drain after a crash stores another sender name for a message of an unnamed sender when a later
  line of the batch gives the conversation another title. `SignalCrashes.ReplayIsSafeExactly`,
  `SignalProtocol.ProtocolIsSafeExactly`.
- A data line writes its conversation and then its message. A crash between the two makes the drain
  count a new message as unread once more. `SignalCrashes.CrashesCountUnread`.
- A drain gives a reaction to a message it was not given to before, when that message came only
  after the reaction and is nearer to what the reaction names. `SignalLateTarget.LateTargetExactly`.
- An anonymous reaction is counted again when its line is applied again.
  `ReactionHistory.ReplayIsNoChangeExactly`.
- An edit and its original do not converge when more rows than a LIMIT share their millisecond or
  window. The arriving original itself moves its placeholder down by one, so nine rows before the
  placeholder already keep it alive. `SignalEdits.EditsConvergeExactly`.
- A duplicate send request is told success although nothing was sent, when the key is released
  between its refused claim and its lookup. `SendKeys.DuplicateIsToldTheTruthExactly`.
- Five attempts per scheduled message hold for one worker only: the retry decision uses the attempts
  remembered in the due list, and n workers can claim a message n + 4 times.
  `Scheduler.ClaimBoundIsExact`.
- A message whose worker dies while it is in sending stays there: nothing returns it to pending.
  `Scheduler.StuckExactly`.
- A process that dies between the legacy repair's commit and its rebuild can leave a stale search
  index that the count guard accepts. `MessageStore.RepairCrashExactly`.
- Paging After skips rows that share a time with a row whose id is empty, when that row is a cursor.
  `Paging.PagingForwardsExactly`.
- Adding a blank tapback emoji reports a change and stores none. `Tapback.ChangedIsExact`.
- Without a dated local message a reconcile stops after its first page.
  `Reconcile.GapIsClosedExactly`.

## Model

| member | source | states |
|---|---|---|
| `ReceiveLog.ConservationExactly` | internal/signallive/client.go:1023-1144 | for every set of lines that may be received: over all runs of receive, append, sync, process, quarantine, drain, replay and process-crash steps that receive only such lines, every occurrence of a synced line is in the log, in the queue or settled, that is processed or replayed with success or, when it is no JSON object, passed over, if and only if each of these lines that the scanner accepts still fits it as a log record; the drain drops the log even when its scan gave up |
| `ReceiveLog.DrainsThatReadConserve` | internal/signallive/client.go:1106-1144 | whatever is received: on every run in which no start after a crash finds a log its scan cannot finish, every occurrence of a synced line is settled, in the log or in the queue |
| `ReceiveLog.Loses` | internal/signallive/client.go:1106-1144 | a run that loses a line: synced, too long as a record, dropped by the drain after a crash |
| `ReceiveLog.ResolvedIsSettled` | internal/signallive/client.go:1146-1208 | over all runs, a line counts as resolved as often as it was handled in full: a JSON line once for each of its own processings or replays that succeeded, and never for one that failed |
| `ReceiveLog.StepKeeps` | internal/signallive/client.go:1023-1344 | each step, except a start whose drain cannot read the log to its end, keeps the account of every line: what only the log holds, what the queue will still hold when a running replay ends, and that the log covers the batch in progress |
| `ReceiveLog.ReplayKeepsUnresolved` | internal/signallive/client.go:1261-1344 | a queue replay keeps exactly the records whose line is a JSON object and whose verdict is not success, each at the rank it had among them |
| `ReceiveLog.HandleIsARun` | internal/signallive/client.go:1023-1051 | what the receive method computes is the outcome of its steps, run without interruption, after which the loop is ready for the next batch |
| `ReceiveLog.DrainIsARun` | internal/signallive/client.go:1106-1144 | the same for the drain |
| `ReceiveLog.ReplayIsARun` | internal/signallive/client.go:1261-1313 | the same for the replay, also while the receive loop is in any phase |
| `ReceiveLog.RunStaysClean` | internal/signallive/client.go:1061-1101 | the files only ever hold non-blank, trimmed lines |
| `ReceiveLog.DownIsQuiet` | internal/signallive/client.go:1261-1344 | over all runs the queue is replayed only by a process that is up, and one replay at a time |
| `ReceiveLog.ScannedExactly` | internal/signallive/client.go:1111-1115 | a scan reads exactly up to the first line of two MiB |
| `ReceiveLog.LinesAreAll` | internal/signallive/client.go:1146-1150 | a batch is worked on as its non-blank lines, each as often as it was received |
| `ReceiveLog.LinesInOrder` | internal/signallive/client.go:1037-1043 | in the order received |
| `ReceiveLog.Bridge.AppendReceiveWAL` | internal/signallive/client.go:1061-1101 | appends one record per non-blank line up to the first that is too long, and succeeds if there is none |
| `ReceiveLog.Bridge.ProcessReceiveLine` | internal/signallive/client.go:1146-1208 | a blank line and one that is no JSON object return true and are resolved; a JSON line whose handling fails returns false and, when recovery is allowed, is one more queue record with that very text and nothing is resolved |
| `ReceiveLog.Bridge.HandleReceiveOutput` | internal/signallive/client.go:1023-1051 | logs the batch, processes its lines in order, and drops the log only when the whole batch was scanned |
| `ReceiveLog.Bridge.DrainReceiveWAL` | internal/signallive/client.go:1106-1144 | processes the readable records and drops the log in any case |
| `ReceiveLog.Bridge.ReplayReceiveRecoveryQueue` | internal/signallive/client.go:1261-1313 | rewrites the queue to the unresolved records, or leaves it when the scan gave up |
| `SignalProtocol.ProtocolIsSafeExactly` | internal/signallive/client.go:1023-1144 | over the log and the store together: from a batch that is just synced, every run of process, quarantine, replay, finish, start, crash and crash-inside-a-line steps that comes to drop the log leaves the store of the batch handled once, unread counts apart, and its very store when no crash falls inside a line, if and only if the titles settle |
| `SignalProtocol.RunStands` | internal/signallive/client.go:1106-1144 | every such run handles prefixes of the batch, one for each crash in a pass, and then the whole batch: it is an interruption of the batch at those points |
| `SignalProtocol.LogIsARun` | internal/signallive/client.go:1023-1144 | the log of every run of log and store together is that of a run of the log alone, event by event, each line's verdict being what handling it on the store says |
| `SignalProtocol.StoreFollows` | internal/signallive/client.go:1023-1208 | a line that is passed, in the log or in a replay, has had its effect on the store once; one that waits for the queue has had none; nothing else writes to the store but a crash inside a line |
| `SignalProtocol.PointsAreARun` | internal/signallive/client.go:1106-1144 | every list of crash points is that of a run of the protocol |
| `SignalProtocol.ReceivedIsSynced` | internal/signallive/client.go:1023-1101 | a received batch whose lines the scanner accepts, also as records, comes to be just synced, its blank lines dropped and the others trimmed |
| `SignalProtocol.NoLineFails` | internal/signallive/client.go:1449-1615 | no line of such a batch fails, in any pass over it |
| `SignalCrashes.ReplayIsSafeExactly` | internal/signallive/client.go:1106-1144 | for a batch of data lines, of edits that follow their original in it, and of named-actor reactions, each edit and reaction after its exact-timestamp target and with no placeholder in its messages' way: any number of crashes at any points, after a line or between the two writes of one, each followed by a drain from the start, ends in the rows, reaction lists and conversations of the uninterrupted run, unread apart, and with crashes after whole lines only in its very state, if and only if every title that comes after an unnamed sender's last delivery is what that message is called already |
| `SignalCrashes.UnsettledHappens` | internal/signallive/client.go:1511-1535 | such titles do come: a batch of an unnamed sender's group message and one that titles the group, from an empty store, is not safe |
| `SignalCrashes.CrashesReplay` | internal/signallive/client.go:1106-1144 | the forward direction for any list of crash points, also during drains, with the exact number by which unread is higher |
| `SignalCrashes.CrashesAreAlike` | internal/signallive/client.go:1449-1572 | whatever the titles, any crashes and drains leave everything but sender names as without them, and unread higher by the crashes between the conversation write and the message write of a new message |
| `SignalCrashes.CrashIsAlike` | internal/signallive/client.go:1449-1572 | the same for one crash at any point |
| `SignalCrashes.CrashedSender` | internal/signallive/client.go:1532-1536 | a message's sender name after one crash and one drain: the title that came after its unnamed last delivery, if one did before the crash, and otherwise the name of the uninterrupted run |
| `SignalCrashes.UnsettledDiffers` | internal/signallive/client.go:1511-1535 | when such a title is not what the message is called, one crash after it makes the drain store another sender name |
| `SignalCrashes.TitlesSettleExactly` | internal/signallive/client.go:1511-1535 | the titles of a batch settle whatever the conversations are called if and only if no unnamed sender's last delivery precedes the first title of its conversation |
| `SignalCrashes.CrashesCountUnread` | internal/signallive/client.go:1489-1530 | after any crashes and drains unread has risen by the number of distinct messages new to the store, and by one more for each crash between the two writes of a new one |
| `SignalCrashes.FirstWriteIs` | internal/signallive/client.go:1530-1553 | what a crash between a line's two writes leaves: the rows before the line, the conversations after it |
| `SignalNames.SenderAgain` | internal/signallive/client.go:1511-1536 | the sender name after a partial and a whole pass, as a function of the lines and of the names at the start |
| `SignalUnread.UnreadCountsNewMessages` | internal/signallive/client.go:1489-1510 | unread rises by the number of distinct messages new to the store, however often the lines repeat them, in conversations that were there and in those the lines create |
| `SignalBatch.PassIsEffects` | internal/signallive/client.go:1449-1615 | in a pass over such a batch no upsert is refused, no placeholder interferes, each reaction meets its own target and each edit its original, and no line fails |
| `SignalBatch.OtherRowsDoNotMatter` | internal/signallive/client.go:1106-1144 | a row of any other conversation, with any reaction list, under an id and a source id of no message of the batch, leaves the batch's conditions true |
| `SignalReplay.RowsIdempotent` | internal/signallive/client.go:1449-1615 | two passes leave every row and reaction list as one pass does, edits included, sender names apart |
| `SignalReplay.ConversationIdempotent` | internal/signallive/client.go:1491-1615 | two passes leave every conversation as one pass does: recency, name, participants, unread |
| `SignalLateTarget.LateTargetExactly` | internal/signallive/client.go:1973-2065 | from an empty store, a message, a reaction and another message: a crash and a drain give the last message a reaction that it does not get without them if and only if the crash comes after all three lines, the reaction has an emoji and it means the last message, the nearest of its author within the window; then some crash makes a difference, and the lines are no batch in the above sense |
| `SignalLateTarget.ClosestFound` | internal/signallive/client.go:2015-2065 | where the limits do not bite, the lookup finds the nearest of the author's messages in the window, the first listed among equals |
| `SignalBatch.ExactFound` | internal/signallive/client.go:2015-2065 | the only message of the author at the exact timestamp is the target found, when fewer than ten rows of that time precede it |
| `SignalBatch.DigestsGiveOnePlace` | internal/signallive/client.go:2567-2575 | injective message digests give one conversation, time and sender for each id |
| `SignalBatch.ProcessLines` | internal/signallive/client.go:1037-1043 | the loop over a batch leaves the state of the run of its lines |
| `SignalEdits.EditsConvergeExactly` | internal/signallive/client.go:1574-1615 | over every schedule of the original, the edit and any number of queue replays anywhere: the queue is empty at the end if and only if a replay follows the edit or the edit saw its original, and then there is one row with the original's id and the edited body, no placeholder and nothing else touched, if and only if the row the deciding lookup needs is within its LIMIT: the placeholder's, one place short, when a replay came between edit and original, otherwise the original's, ten at the millisecond or fifty in the window |
| `SignalEdits.OrdersAgreeExactly` | internal/signallive/client.go:1829-1971 | two finished schedules leave the same rows when both or neither replayed the edit before the original; where both kinds converge, all leave the same row if and only if the edit repeats the original's mention and replaces none of its attachment |
| `SignalEdits.ScheduleStage` | internal/signallive/client.go:1261-1313 | every prefix of a schedule leaves the rows and the recovery queue of the stage that the order of its events gives |
| `SignalEdits.OriginalArrives` | internal/signallive/client.go:1449-1572 | with no placeholder about, a new message is stored as one new row |
| `SignalEdits.EditMisses` | internal/signallive/client.go:1877-1920 | an edit without its original changes no row; its replay stores the placeholder |
| `SignalEdits.EditMeetsOriginal` | internal/signallive/client.go:1829-1860 | an edit after its original changes that row exactly when the lookup reaches it, is refused otherwise, and its replay then stores a placeholder beside it |
| `SignalEdits.OriginalMeetsPlaceholder` | internal/signallive/client.go:1482-1560 | the original absorbs the placeholder when it is among the first ten, and deletes it only when it still is after the original took a place before it |
| `SignalEdits.OriginalFoundExactly` | internal/signallive/client.go:2015-2065 | the edit lookup finds the original if and only if fewer than ten rows of its millisecond or fifty of its window precede it |
| `SignalEdits.OriginalBeforePlaceholder` | internal/signallive/client.go:2567-2589 | a message id sorts before every placeholder id |
| `SignalStore.PickIsNearest` | internal/signallive/client.go:2034-2065 | the target picked is the nearest eligible row, the first among equals, and there is one whenever a row is eligible |
| `SignalStore.Bridge.PickReactionTargetMessage` | internal/signallive/client.go:2034-2065 | the loop computes the specified pick |
| `SignalStore.Bridge.FindTimestampTarget` | internal/signallive/client.go:2015-2032 | the exact-timestamp listing first, then the fifteen-second window |
| `SignalStore.Bridge.FindSignalMissingEditAlias` | internal/signallive/client.go:1922-1948 | the sender's placeholder at that time, if it is the only one listed |
| `SignalStore.Bridge.StoreDataMessage` | internal/signallive/client.go:1532-1560 | stores the row with the placeholder absorbed, and deletes the placeholder if it is found again |
| `SignalStore.Bridge.HandleDataMessage` | internal/signallive/client.go:1449-1572 | the whole new state of messages and conversations after a data message, refused or not |
| `SignalStore.Bridge.ApplyReaction` | internal/signallive/client.go:1973-2013 | only the reactions of the target found change, and only when there is a change |
| `SignalStore.Bridge.ApplySignalEdit` | internal/signallive/client.go:1829-1860 | the target's row edited, or the error that it is missing |
| `SignalStore.Bridge.MaterializeMissingSignalEdit` | internal/signallive/client.go:1877-1920 | the placeholder row of the edit, at the target's time, the edit's own or the clock's, whichever is set first |
| `SignalStore.Bridge.HandleEditMessage` | internal/signallive/client.go:1574-1615 | the conversation is ensured, then the edit applied or, in a replay, materialized |
| `SignalColumns.DataColumns` | internal/signallive/client.go:1449-1572 | the row of a message that is handled, column by column, from the line: its text, sender number and name, its time or the envelope's, received and not the account's, its mention, reply and attachment; the absorbed placeholder's text and columns where it has any, and the stored columns where both are empty; no other row changes and only a placeholder of the message goes |
| `SignalColumns.DataRefusedExactly` | internal/signallive/client.go:1537-1553 | a data message is refused if and only if its digest is the source id of another Signal row, and the rows then stay |
| `SignalColumns.DataConversationColumns` | internal/signallive/client.go:1489-1530 | the conversation after a message: its title, members, greatest time, and one more unread exactly when the message is new |
| `SignalColumns.EditColumns` | internal/signallive/client.go:1829-1875 | an edit that finds its message replaces the text and the mention, and the reply and the attachment where it brings some, and nothing else |
| `SignalColumns.MissingEditColumns` | internal/signallive/client.go:1877-1920 | an edit that finds none is refused, and in a replay stored under its own row, with the columns of the edit and the target's time |
| `SignalColumns.EditRefusedExactly` | internal/signallive/client.go:1829-1920 | an edit fails if and only if the row it would leave clashes with another by source id, and is reported missing if and only if no message is found outside a replay; the rows then stay |
| `SignalColumns.EditConversationColumns` | internal/signallive/client.go:1574-1600 | the conversation after an edit: as recent as the envelope, with no more unread |
| `SignalColumns.NotFor` | internal/signallive/client.go:1449-1475 | a message or an edit from nobody, or from the account itself, changes nothing |
| `SignalColumns.TargetlessEdit` | internal/signallive/client.go:1829-1835 | an edit that names no time changes no row |
| `SignalColumns.ReactionColumns` | internal/signallive/client.go:1973-2013 | a reaction changes the list of the message it finds and nothing else |
| `SignalColumns.FoundQualifies` | internal/signallive/client.go:2015-2065 | what the lookup finds is of the conversation and the author and within fifteen seconds |
| `SignalColumns.AddressesMatchExactly` | internal/signallive/client.go:3188-3192 | two addresses match if and only if they are the same but for case and surrounding space, and not blank |
| `SignalColumns.BatchSays` | internal/signallive/client.go:1449-1615 | after a batch every delivered message has the text and the mention of its last delivery or edit |
| `ReactionHistory.ListRecordsHistory` | internal/signallive/client.go:2363-2439 | after any updates from the empty list: strictly sorted by emoji, an actor stands in exactly the entry it last chose and in none after a removal, and each count is the number of distinct actors plus the anonymous reactions |
| `ReactionHistory.UpdateLaw` | internal/signallive/client.go:2363-2439 | one update keeps the list canonical and changes each emoji's entry as specified |
| `ReactionHistory.ReplayIsNoChangeExactly` | internal/signallive/client.go:2363-2439 | applying a batch of updates twice is applying it once, on every canonical list, if and only if no update is anonymous |
| `SignalReactions.UpdateStoredReactions` | internal/signallive/client.go:2363-2439 | the loops compute the specified list, and report a change exactly when there is an emoji or the actor stood somewhere |
| `SignalReactions.ClearActor` | internal/signallive/client.go:2373-2383 | the actor leaves every entry, and whether it stood in one |
| `SignalReactions.ChooseEmoji` | internal/signallive/client.go:2385-2411 | the first entry of the emoji counts the actor, or a new entry does |
| `SignalReactions.Compact` | internal/signallive/client.go:2413-2421 | blank and empty entries go |
| `SignalReactions.AnyListIsCleaned` | internal/signallive/client.go:2413-2425 | whatever list was stored, an update that changes something leaves trimmed, non-blank, counted entries in the order of their emojis |
| `SendKeys.AtMostOneDispatchExactly` | internal/web/api.go:427-457 | over every interleaving of requests, retries, database errors and crashes, at most one dispatch of a key may have reached the platform, if and only if the key is non-empty |
| `SendKeys.StepKeepsKeys` | internal/web/api.go:1534-1717 | each step keeps, for every non-empty key: one holder, a row whenever held or possibly dispatched, and no holder that could dispatch again or release once it was |
| `SendKeys.DuplicateIsToldTheTruthExactly` | internal/web/api.go:399-439 | a duplicate answered with success was accepted by the platform if and only if its lookup found the row; without a row nothing was sent |
| `SendKeys.FalseSuccessHappens` | internal/web/api.go:399-439 | a run in which a duplicate is told success although nothing was sent |
| `SendKeys.ServedIsARun` | internal/web/api.go:551-719 | a handler that nothing interleaves with leaves the table and response of its steps run in order |
| `SendKeys.SendKeyTable.HandleSend` | internal/web/api.go:1534-1717 | the key table and the response after one undisturbed request, in every case of claim, lookup, preparation, outcome and store error; an accepted and recorded send is answered with success, and an accepted one never as failed |
| `SendKeys.ResponseIsTrueExactly` | internal/web/api.go:1534-1717 | over all runs, a request that is over was told success if and only if its own dispatch was accepted and the message recorded, sent-but-not-stored if and only if it was accepted and not recorded, and failure of the send only when its dispatch was refused |
| `SendKeys.CompletionIsFinal` | internal/web/api.go:1534-1717 | after an accepted dispatch and a completion that works, the key's row holds that message id and whether it was recorded, at the end of every longer run |
| `SendKeys.DuplicateAnswer` | internal/web/api.go:399-439 | a duplicate is told success unless the row it finds is still sending or failed |
| `SendKeys.SendKeyTable.ClaimOutgoingSendKey` | internal/db/outgoing_send_keys.go:25-46 | inserts a sending row unless the key has one, and claims exactly then |
| `SendKeys.LookupSeesLastStatement` | internal/db/outgoing_send_keys.go:25-76 | however the statements of many requests interleave, a lookup sees what the last statement on its own key made of the row it found: a claim keeps a row, a completion makes none, nothing outlasts a release |
| `SendKeys.SendKeyTable.CompleteOutgoingSendKey` | internal/db/outgoing_send_keys.go:64-71 | sets message id and status of an existing row |
| `SendKeys.SendKeyTable.ReleaseOutgoingSendKey` | internal/db/outgoing_send_keys.go:73-76 | deletes the key's row |
| `Scheduler.SendsAtMostOnce` | internal/app/scheduler.go:34-96 | with any number of workers, stale due lists, cancels, database errors and crashes: a held message is in sending and held once, at most one send of it succeeds and then it is sending or sent, and attempts count its failed claims, with one more claim open in sending or sent |
| `Scheduler.TerminalIsFinal` | internal/db/scheduled.go:151-193 | no step touches a sent, failed or canceled row |
| `Scheduler.TerminalStays` | internal/db/scheduled.go:151-193 | a sent, failed or canceled row is unchanged at the end of every longer run |
| `Scheduler.StuckExactly` | internal/app/scheduler.go:45-96 | a message in sending is stuck there for good if and only if no worker holds it: no later step of any run changes its row |
| `Scheduler.CrashStrands` | internal/app/scheduler.go:45-96 | a worker that dies, or whose settling statement fails, leaves the message it holds stuck in that way |
| `Scheduler.AttemptsWithWorkers` | internal/app/scheduler.go:89-96 | with n workers a failed message has between 5 and n+4 attempts and any other at most n+3, so with one worker exactly 5 and at most 4 |
| `Scheduler.ClaimBoundIsExact` | internal/app/scheduler.go:34-96 | with n workers a message is claimed at most n+4 times and some run reaches that, so the limit of five claims holds if and only if one worker runs |
| `Scheduler.ClaimsAreDue` | internal/db/scheduled.go:123-130 | on every run a message is claimed only after some worker loaded its list at or after the message's time |
| `Scheduler.LoadIsExact` | internal/db/scheduled.go:123-130 | an idle worker takes up a list if and only if it holds each pending message whose time has come once and no other, earliest first, with its attempts so far |
| `Scheduler.SendColumns` | internal/app/scheduler.go:45-96 | each column of each row after one send: a message that is not pending is passed over, an accepted one is sent under its id, a failed one counts an attempt with its reason and is given up from the fifth remembered attempt on |
| `Scheduler.ClaimColumns` | internal/db/scheduled.go:151-160 | a claim takes a pending message and no other; the worker goes on only when told so, and a claim that went through but reported an error leaves the message in sending |
| `Scheduler.SettledColumns` | internal/app/scheduler.go:62-96 | each column after a worker's send and settlement, at any point of a run |
| `Scheduler.CreateAndCancel` | internal/db/scheduled.go:70-193 | a message is created pending, once; only a pending one can be canceled |
| `Scheduler.PassIsARun` | internal/app/scheduler.go:34-43 | the loop over a due list computes the outcome of a run of its worker's steps |
| `Scheduler.ScheduledTable.ClaimScheduledMessage` | internal/db/scheduled.go:151-160 | claims a pending row and nothing else |
| `Scheduler.ScheduledTable.CancelScheduledMessage` | internal/db/scheduled.go:185-193 | cancels a pending row and nothing else |
| `Scheduler.ScheduledTable.MarkScheduledMessageSent` | internal/db/scheduled.go:162-167 | marks the row sent with its message id |
| `Scheduler.ScheduledTable.RetryOrFail` | internal/app/scheduler.go:89-96 | decides on the attempts remembered when the due list was loaded |
| `Scheduler.ScheduledTable.SendScheduledMessage` | internal/app/scheduler.go:45-85 | the row after one claim, route check, send and settlement |
| `Scheduler.ScheduledTable.ProcessDueScheduledMessages` | internal/app/scheduler.go:34-43 | the table after working through a due list |
| `MessageStore.RunKeepsIndex` | internal/db/messages.go:879-899 | over all runs of upserts, outgoing records, reaction updates, deletions, conversation merges and deletions, legacy repairs and restarts, each live message has exactly one index row, holding its merged body |
| `MessageStore.EqualCountsExactly` | internal/db/db.go:499-519 | under that invariant the index agrees with the table if and only if the row counts are equal, so skipping the rebuild is sound |
| `MessageStore.RestartIsExact` | internal/db/db.go:499-531 | after any run and a restart the index is exactly the table |
| `MessageStore.RepairCrashExactly` | internal/db/repair.go:179-193 | when the process dies between the repair's commit and its rebuild, the next start gets the index right if and only if the counts differ or no body was rewritten |
| `MessageStore.StaleIndexHappens` | internal/db/repair.go:179-193 | one blank Signal message is enough for a stale index |
| `MessageStore.RepairSettles` | internal/db/repair.go:55-193 | a repaired store needs no repair: the next one finds nothing and changes nothing |
| `MessageStore.LatestIsNewest` | internal/db/repair.go:164-177 | a reset recency is the conversation's newest message time, or zero when it has none |
| `MessageStore.MergeMovesRows` | internal/db/conversations.go:133-135 | merging a conversation into another moves its messages and nothing else: the target then has its own and the source's, none lost and none twice, and every other conversation its own |
| `MessageStore.MergeLosesNothing` | internal/db/conversations.go:426-464 | the merged record is as recent and as unread as either, keeps a name and participants if there were any, invents nothing and prefers the target's name; other records stay |
| `MessageStore.SearchAfterAnyRun` | internal/db/messages.go:266-351 | after any run the joined search is the top-Limit of a brute-force scan under the same matcher and filter |
| `MessageStore.JoinIsScan` | internal/db/messages.go:282-317 | one index row per message makes the join repeat no message and miss none |
| `MessageStore.Store.SearchMessagesFiltered` | internal/db/messages.go:266-280 | the brute-force scan by MATCH where the index finds anything, and by LIKE where it finds nothing, fails or is disabled, with the default limit and the window put the right way round |
| `MessageStore.Store.SearchMessagesFTS` | internal/db/messages.go:282-317 | the loop computes the joined, sorted, limited answer |
| `MessageStore.Store.UpsertMessage` | internal/db/messages.go:21-39 | the merged row is indexed with its merged body, or nothing changes |
| `MessageStore.Store.RecordOutgoingMessage` | internal/db/messages.go:111-136 | the upsert and, when it is accepted, the conversation's recency set outright |
| `MessageStore.Store.SyncMessageSearchIndex` | internal/db/messages.go:879-890 | the id's index rows are replaced by one |
| `MessageStore.Store.DeleteMessages` | internal/db/messages.go:892-899 | rows and their index rows go together |
| `MessageStore.Store.MergeConversationIDs` | internal/db/conversations.go:109-148 | messages move, the records merge, the source goes |
| `MessageStore.Store.DeleteConversation` | internal/db/conversations.go:150-172 | messages and conversation go, their index rows stay |
| `MessageStore.Store.ForceRebuildFTS` | internal/db/db.go:523-531 | the index is exactly the table |
| `MessageStore.Store.RebuildFTS` | internal/db/db.go:499-519 | rebuilds only when the counts differ |
| `MessageStore.Store.ResetRecency` | internal/db/repair.go:164-177 | each affected conversation gets its newest message's time, or zero |
| `MessageStore.Store.RepairLegacyArtifacts` | internal/db/repair.go:55-205 | the whole new state: placeholders gone, blank bodies rewritten, outgoing rows attributed, recency reset, index rebuilt when a body or row changed |
| `StoreLaws.RepairRows` | internal/db/repair.go:14-162 | a row is deleted if and only if it has a source id, no media, type, reaction or reply, and is a WhatsApp row reading [Reaction] or [Unsupported message] or a Signal row reading [Reaction]; every other row keeps every column, except the text of a Signal row of spaces and the sender, platform and direction of an outgoing SMS row that was not marked |
| `StoreLaws.RepairConversations` | internal/db/repair.go:164-177 | a conversation that lost a row ends with its newest remaining time, or zero; all others keep theirs, and no other column changes |
| `StoreLaws.RepairIndexes` | internal/db/repair.go:179-193 | a repair that deleted or rewrote a row leaves the index in agreement, any other leaves it alone |
| `StoreLaws.RecordColumns` | internal/db/messages.go:111-136 | an accepted sent message sets its conversation's time, forward or back, and no other conversation or column changes |
| `StoreLaws.UpsertIndexes` | internal/db/messages.go:21-39 | an accepted upsert leaves one index row of the message, with its merged text, and every other id's as they were; a refused one changes nothing |
| `StoreLaws.DeleteColumns` | internal/db/messages.go:892-899 | the deleted rows are gone with their index rows, and everything else stays |
| `StoreLaws.DeleteConversationColumns` | internal/db/conversations.go:150-172 | the conversation and exactly its messages are gone, unless the id is blank |
| `StoreLaws.SetReactionsColumns` | internal/db/messages.go:106-109 | only the reactions of that message change |
| `StoreLaws.MergeColumns` | internal/db/conversations.go:426-464 | each column of a merged record: the target's unless empty, the greater time and unread count; merging with itself or from a missing record does nothing |
| `StoreLaws.SearchExactly` | internal/db/messages.go:266-351 | the search finds a message if and only if its text matches, it is of the given sender, conversation and window, and fewer than the limit, twenty by default, are newer; newest first |
| `Upsert.UpsertKeepsLastValues` | internal/db/messages.go:41-73 | after any interleaving of upserts, refused ones included, each content column of each id is the last non-empty value the unique index let in for it, the time the last positive one, and the volatile columns those of the last delivery |
| `Upsert.UpsertIdempotent` | internal/db/messages.go:21-82 | repeating an upsert changes nothing |
| `Upsert.MergeBand` | internal/db/messages.go:57-73 | the merge is associative and an overwritten delivery adds nothing |
| `Upsert.UpsertRow` | internal/db/db.go:390 | a source-id clash leaves the table as it was; otherwise only the message's own row changes |
| `Upsert.UpsertAllKeepsSourcesUnique` | internal/db/db.go:390 | source ids stay unique per platform over every run |
| `Upsert.RefusedExactly` | internal/db/db.go:390 | a delivery is refused if and only if its platform, SMS when blank, and its source id, the stored one when empty, stand under another id; it then changes nothing, and otherwise they stand under its own |
| `Recency.RecencyIsMaximum` | internal/db/conversations.go:487-499 | any run of snapshots, bumps, messages and reads leaves recency at the greatest of its start, the snapshot times and the content-bearing message times |
| `Recency.OrderDoesNotMatter` | internal/db/conversations.go:487-499 | the same recency for every order of the same events |
| `Recency.ReadStaysRead` | internal/db/conversations.go:487-499 | a read conversation stays read under any run without a snapshot newer than its recency |
| `Recency.EventColumns` | internal/db/conversations.go:487-499 | what each event does to each column: a snapshot's own columns with the later time, unread cleared exactly for a read conversation that it is not newer than; a bump or a message raises the time alone, and a message exactly when it has visible text, media or a reaction |
| `Recency.LastSnapshotStands` | internal/db/conversations.go:403-499 | after any run a conversation has the name, members and platform of its last snapshot, or its own when there was none; nothing else creates one |
| `Recency.ConversationTable.ApplyConversationSnapshot` | internal/db/conversations.go:487-499 | the stored snapshot under both guards |
| `Recency.ConversationTable.UpsertConversation` | internal/db/conversations.go:403-424 | the row, with the default platform |
| `Recency.ConversationTable.BumpConversationTimestamp` | internal/db/conversations.go:97-107 | recency is raised, never lowered |
| `Recency.ConversationTable.AdvanceConversationRecency` | internal/db/recency.go:10-28 | a message without content bumps nothing |
| `Recency.ConversationTable.MarkConversationRead` | internal/db/conversations.go:174-177 | clears unread |
| `Paging.PagingBackwardsIsComplete` | internal/db/messages.go:147-187 | paging Before from each page's last row lists every message of the conversation once, newest first, for any positive limit and any ids |
| `Paging.PagesListEachRowOnce` | internal/db/messages.go:147-187 | the same over the rows: the pages hold each message of the conversation, each later in the list being older, or as old with a smaller id |
| `Paging.PagingForwardsExactly` | internal/db/messages.go:189-214 | paging After from a start before every message lists the conversation once, oldest first, for every page size, if and only if no message with an empty id shares its time with another |
| `Paging.AroundIsSlice` | internal/db/messages.go:410-472 | the rows before, the anchor and the rows after are one contiguous ascending slice of the conversation |
| `Paging.GetMessagesAroundMessage` | internal/db/messages.go:410-472 | the loops build that slice |
| `Ordering.FirstExactly` | internal/db/messages.go:369-408 | a row is among the first n of a listing if and only if fewer than n rows precede it |
| `Reconcile.GapIsClosed` | internal/app/backfill.go:497-552 | when the reconcile stops at the local boundary or at the end of history, every server message ahead of the newest local one is handled, and stored unless a stub |
| `Reconcile.GapIsClosedExactly` | internal/app/backfill.go:497-552 | with full pages and no failed fetch every such message is handled if and only if there are at most 120; otherwise exactly the newest 120 are; without a dated local message only the first page is |
| `Reconcile.NewestExactly` | internal/app/backfill.go:498-506 | the local row the reconcile starts from: none if and only if the conversation has no row, otherwise the one of its rows that no other follows in (time, id) |
| `Reconcile.GapIsClosedHere` | internal/app/backfill.go:497-552 | from the table: where the conversation's newest row is dated, stopping at the boundary or at the end of history means every server message ahead of that row is handled, and stored unless a stub |
| `Reconcile.GapIsClosedHereExactly` | internal/app/backfill.go:497-552 | from the table, with full pages: the messages ahead of the newest row are all handled if and only if there are at most 120, otherwise exactly 120 are; without a dated row the first thirty are |
| `Reconcile.NoPageTooMany` | internal/app/backfill.go:540-545 | no page is fetched after one that reaches the local row or goes past it |
| `Reconcile.StopsExactly` | internal/app/backfill.go:508-551 | the reconcile goes past exactly the pages that bring messages, none of them the local row or older, with more to come; the first other answer, or the fourth page, decides how it ends and how much of the history is handled: a lost client or session aborts it, a failed fetch or an empty page ends it, and any other last page is stored first |
| `Reconcile.StubExactly` | internal/app/backfill.go:707-750 | a message is skipped if and only if it has no text, media or reaction and a status that is neither a tombstone nor one of something still going on |
| `Reconcile.HandledIsPrefix` | internal/app/backfill.go:533-536 | whatever stops it, the table is the old one with the handled prefix of the history stored |
| `Reconcile.HandledHoldsLastValues` | internal/app/backfill.go:707-750 | each row holds, column by column, the last value that the unique index let in from the handled prefix, which is all of it when no local row of a served id has a source id |
| `Reconcile.ReconcileBatchReachedLocalBoundary` | internal/app/backfill.go:627-644 | true exactly when the page is empty, nothing local is dated, the local id is on the page, or a message is older |
| `Reconcile.MessageTable.StoreMessage` | internal/app/backfill.go:707-750 | stubs are skipped, everything else is upserted |
| `Reconcile.MessageTable.ReconcileRecentConversationMessages` | internal/app/backfill.go:497-552 | the loop's table and both results are those of the specification |
| `People.DedupeKeepsSubsequence` | internal/db/people.go:181-211 | the result is a subsequence of the sorted input and every dropped message has a twin at most two seconds earlier among the twenty kept right before it |
| `People.RepeatsGoExactly` | internal/db/people.go:181-211 | a message left out has the text and direction of one of the twenty kept right before it, within 2000 ms, and no kept message does |
| `People.DedupeIdempotent` | internal/db/people.go:181-211 | deduplicating twice is deduplicating once |
| `People.BoundedLookbackSuffices` | internal/db/people.go:181-211 | the bounded lookback equals the unbounded one when no two seconds hold more than 20 kept messages |
| `People.StableSortedIsStable` | internal/db/people.go:181-190 | the sort is stable: ascending, with each time's messages in their old order |
| `People.DedupePersonMessages` | internal/db/people.go:181-211 | the loops compute the specified list |
| `Tapback.MergeIsSetUpdate` | internal/db/tapback.go:169-225 | on well-formed lists a merge inserts or deletes one (emoji, actor) pair and keeps the list well formed |
| `Tapback.ChangedIsExact` | internal/db/tapback.go:169-225 | changed tells exactly whether the set of pairs changed, if and only if the call removes or its emoji is not blank |
| `Tapback.MergeIdempotent` | internal/db/tapback.go:169-225 | merging twice is merging once |
| `Tapback.RemoveUndoesAdd` | internal/db/tapback.go:169-225 | removing a freshly added pair restores the very list |
| `Tapback.RemovesOne` | internal/db/tapback.go:180-196 | on any entry the actor's first place goes and the count goes down unless it is zero |
| `Tapback.MergeReaction` | internal/db/tapback.go:169-225 | the loops compute the specified list and flag |
| `Tapback.IndexOfString` | internal/db/tapback.go:267-274 | the first index of the string, or -1 |
| `Thread.ThreadIsNewestOfWindow` | cmd/thread.go:143-169 | filtering the fetched rows and reversing them gives exactly the newest Limit rows of the window, oldest first |
| `Thread.ThreadExactly` | cmd/thread.go:143-169 | a message is on the thread if and only if it is of the conversation, inside the bounds, and fewer than the limit are newer; oldest first |
| `Thread.FilterCommutesWithLimit` | cmd/thread.go:158-167 | filtering by time commutes with taking a prefix of a descending list |
| `Thread.LoadConversationMessages` | cmd/thread.go:143-169 | the in-place filter and reverse compute that list |
| `Thread.FilterSince` | cmd/thread.go:158-166 | compacts the slice in its own backing array |
| `Thread.ReverseMessages` | cmd/thread.go:173-177 | reverses in place |
| `Status.CommaIntRoundTrips` | cmd/status.go:152-176 | without its commas the output parses back to the same integer |
| `Status.GroupedShape` | cmd/status.go:152-176 | the output has a sign exactly for negative integers, and then the integer's digits in groups: one to three first, then exactly three under one comma each |
| `Status.GroupedExactly` | cmd/status.go:158-171 | the groups cut off from the right are the one grouping of a string of digits |
| `Status.CommaInt` | cmd/status.go:152-176 | the loop prints the specified grouping |
| `Text.TrimSpaceExactly` | internal/signallive/client.go:3194-3201 | trimming takes off exactly the white space at both ends, and leaves nothing of blank text only |
| `Text.LessExactly` | internal/db/messages.go:147-187 | the text order of the queries is decided at the first difference, a proper prefix first |

## Left out

- SignalCrashes.ReplayIsSafeExactly: each reaction comes after its exact-timestamp target and is by a named actor. Outside that a drain can give a reaction to another message (SignalLateTarget.LateTargetExactly, for three lines) or count it again (ReactionHistory.ReplayIsNoChangeExactly); when exactly it does over a whole batch is not stated.
- SignalCrashes.ReplayIsSafeExactly: asks a canonical reaction list of each row a reaction of the batch targets, which is what the bridge itself stores there, and that no row is a pending placeholder of a message of the batch or holds its source id under another id; all other rows may be anything (SignalBatch.OtherRowsDoNotMatter).
- SignalCrashes.ReplayIsSafeExactly: an edit of the batch names its target's time and follows a message of the batch; an edit without its original goes to the queue, which is the subject of SignalEdits, for one original and one edit.
- SignalProtocol.ProtocolIsSafeExactly: one batch, with nothing queued before it and no later batch; ReceiveLog treats any number of batches, without the store.
- SignalEdits.EditsConvergeExactly: one original, one edit and no other traffic between them; messages of other authors may stand anywhere before. A schedule that ends with the edit still queued has not converged and is not compared.
- SignalReactions.UpdateStoredReactions: the sort is stable in the model; the order `sort.Slice` gives equal emojis is not specified, and canonical lists have none.
- ReceiveLog.ConservationExactly: process crashes only; torn writes, disk errors and malformed records are not modelled, and the startup drain is over before polling begins, which the source states but does not enforce.
- ReceiveLog.Bridge.AppendReceiveWAL: the batch is not trimmed as a whole first, which matters only for a line of two MiB of white space.
- MessageStore.Store.SearchMessagesFiltered: MATCH and LIKE are two abstract predicates on body and query.
- ReceiveLog.Bridge.ProcessReceiveLine: the verdict on a line is a parameter; the envelope handling that gives it is modelled apart, in SignalStore, for data messages, reactions and edits.
- MessageStore.Store.UpsertMessage: the display protocol that is set beside the row is not modelled.
- MessageStore.Store.RecordOutgoingMessage: the draft that the transaction deletes is not modelled.
- MessageStore.Store.MergeConversationIDs: drafts, and the protocol, favourite and notification columns, are not modelled.
- MessageStore.Store.DeleteConversation: the deletion of drafts is not modelled.
- Recency.ConversationTable.UpsertConversation: the guards on protocol, favourite and notification columns are not modelled.
- MessageStore.Store.RepairLegacyArtifacts: the most common outgoing sender is a parameter, and the report's count of remaining media placeholders and of attributed rows is not returned.
- Scheduler.SendsAtMostOnce: ids are never deleted and inserted again; nothing in the source deletes a scheduled row.
- Messages the account itself sends (`handleSentMessage`, `handleSentEditMessage`, internal/signallive/client.go:1617-1786): the same placeholder protocol with a local-echo match on body and time.
- `processReceiveLine`'s envelope unwrapping, recovery reasons and typing messages; a received line is one data message, reaction or edit, its sender already resolved through the contact map.
- `ApplyTapback`, `ParseTapback` and `findTapbackTarget` (internal/db/tapback.go): regular expressions and fuzzy quotes.
- Transcript, display protocol, favourite, notification and draft columns; callbacks and history-sync counters.
- Case folding is ASCII, which Signal addresses are; Unicode normalisation is not modelled.
- Integers are unbounded; no 64-bit overflow is modelled.
- JSON encoding, SHA-1, SQL text, HTTP, networking, pairing and process handling; digests are functions that give hex text, encodings give lengths.
- Schema migration, demo data and external importers, which write rows without the index.
