# Media approval bot: a verified model of its moderation core

The bot sits in a Telegram main group. It withholds the photos and videos that members post, collects the parts of an album into one submission, and sends each submission to an approval group. There, admins approve all of it, reject all of it, or review it item by item (Keep / Remove) and then finalize.

This project models that core in Dafny and proves properties of it:

- **Pending table** (`Pending`). `PendingStore` is a class: rows keyed by an AUTOINCREMENT id, with save, get and delete.
- **Album buffer and flush tasks** (`MediaBot.Bot`):
  - `buffer` maps the `"chat_id:media_group_id"` key to the items received so far, in arrival order.
  - `armed` is the multiset of keys whose flush task was created and has not yet run.
  - `Flush(key)` is the body of the flush task after its sleep.
- **Selection store** (`Selection`). It maps a pending id to the keep/remove decision per item index. The decisions are read with keep as the default.
- **Handlers** (`MediaBot.Bot`). There is one method per handler: `OnMessage`, `ApproveAll`, `RejectAll`, `Selective`, `KeepRemove` and `Finalize`.
  - Each handler that receives callback data parses it first, then calls a method on the parsed id (`ApproveRow`, `RejectRow`, `StartSelection`, `MarkItem`, `FinalizeRow`).
  - Each is specified by a two-state predicate over a `BotState` snapshot of every store.
  - Requests to the chat service are appended to `posts`: a batch, a single media or a text. A single media or a text also carries the callback data of its buttons.
  - Whether a repost to the main group went out is an input of type `Delivery`.
- **Callback data** (`Callbacks`):
  - the strings the buttons carry;
  - the dispatcher's routing by prefix;
  - `split(":", 1)` followed by `int()`;
  - the exactly-three-parts rule of keep/remove.
- **Configuration and admission** (`Admission`, `Intake`):
  - the ADMIN_IDS parse loop;
  - the three early returns of the message handler;
  - how a message becomes an item and a pending row.
- **Python string functions** (`Text`): the parts of `str.strip`, `str.split`, `int()` and `str()` that the bot relies on.
- **Album interleaving** (`AlbumRace`): the album branch as written, in two steps, and the corrected check that decides from the length taken at the append, before the deletion (see Findings).
- **Scenarios** (`Scenarios`): runs from start-up that chain several handlers.

Behaviour of the code worth knowing, all of it modelled as written:

- **Finalize button.** It is offered when the number of recorded decisions equals the item count. Whether every index in range has a decision is not checked. `CountIsNotCoverage` shows two decisions that complete a two-item review while index 1 is undecided.
- **Album caption and identity.** They come from the first buffered item only. An album whose first part has no caption gets no caption, even when a later part has one.
- **Flush scheduling.** One flush task is created when a key's list reaches one item. Later parts do not re-arm or postpone it.
- **Unsupported album parts.** An album part that is neither a photo nor a video still creates an empty buffer entry (`setdefault`). It creates no flush task.
- **Selection cleanup.** Approve-all and reject-all leave the selection store entry of the row in place. Only finalize removes it.
- **Callback permissions.** The callback handlers do not check who pressed the button.
- **Ids the database cannot bind.** `int()` accepts any size of integer, but the SQLite driver binds only signed 64-bit values. For a larger id, `get_pending` raises `OverflowError` outside any `try`, so the handler ends without its "stale" reply. The model answers `Raised` and changes nothing. In keep/remove the decision is recorded and answered before the lookup raises.

## Model

| member | source | states |
|---|---|---|
| Text.Strip | aiogram_media_approval_bot.py:50 | the result is one contiguous slice of the input, everything before and after it is whitespace, and neither of its ends is whitespace |
| Text.PyInt | aiogram_media_approval_bot.py:54 | a string int() accepts holds at least one digit and nothing but digits, signs and whitespace |
| Text.IntToString | aiogram_media_approval_bot.py:241 | str(n) is non-empty, has no whitespace at either end, and is digits after an optional leading minus |
| Text.Split | aiogram_media_approval_bot.py:49 | s.split(sep) gives at least one piece and no piece holds the separator |
| Text.StripIdempotent | aiogram_media_approval_bot.py:50 | stripping twice is stripping once |
| Text.IntToStringRoundTrip | aiogram_media_approval_bot.py:294 | int(str(n)) == n for every integer |
| Text.IntToStringInjective | aiogram_media_approval_bot.py:241 | str(a) == str(b) exactly when a == b |
| Text.JoinSplit | aiogram_media_approval_bot.py:49 | joining the pieces of s.split(sep) with sep gives s back |
| Text.SplitJoin | aiogram_media_approval_bot.py:49 | splitting the join of separator-free pieces gives the pieces back |
| Text.SplitOnce | aiogram_media_approval_bot.py:294 | split(sep, 1) gives one part exactly when sep is absent, otherwise a separator-free head and a tail that rebuild the string |
| Text.SplitOnceAfter | aiogram_media_approval_bot.py:294 | for a separator-free prefix, split(sep, 1) of prefix + sep + t is [prefix, t] |
| Admission.AdminIdOf | aiogram_media_approval_bot.py:50-57 | skipping a blank piece gives the same result as int() on it: the id of a piece is exactly int(piece), None where int() raises |
| Admission.AdminIdsMembership | aiogram_media_approval_bot.py:46-57 | an id is in ADMIN_IDS exactly when some comma-separated piece of the raw value is that int |
| Admission.IsAdmin | aiogram_media_approval_bot.py:163 | with ADMIN_IDS empty nobody is an admin |
| Admission.Admitted | aiogram_media_approval_bot.py:224-237 | an admitted message is from no bot and no admin, and the main group text it matched is non-empty with no sign or blanks around it |
| Admission.CollectMembership | aiogram_media_approval_bot.py:47-57 | an id is in the collected set exactly when some piece parses to it |
| Admission.ParsePiece | aiogram_media_approval_bot.py:50-57 | one piece: stripped, skipped when empty, else int() with invalid values dropped |
| Admission.ParseAdminIds | aiogram_media_approval_bot.py:46-57 | the loop's set is exactly the ids of the pieces that parse |
| Admission.AdminIdsRoundTrip | aiogram_media_approval_bot.py:46-57 | a comma-joined list of integers parses back to exactly that set of ids |
| Admission.AdmittedIff | aiogram_media_approval_bot.py:224-237 | with the main group configured as str(id), a message passes the early returns exactly when its sender is no bot, its chat is that id and its sender is not in ADMIN_IDS |
| Admission.NonCanonicalGroupAdmitsNothing | aiogram_media_approval_bot.py:230 | a main group id written with a plus sign or surrounding blanks admits no message, because the comparison is textual |
| Callbacks.HandlerFor | aiogram_media_approval_bot.py:290-405 | each handler receives exactly the data that starts with its own prefix, whatever the registration order, and routed data always holds a colon |
| Callbacks.PrefixesExclusive | aiogram_media_approval_bot.py:290-405 | no callback data starts with two of the five filters' prefixes |
| Callbacks.CallbackId | aiogram_media_approval_bot.py:294 | an id is parsed only from data that holds a colon |
| Callbacks.ParseMark | aiogram_media_approval_bot.py:377-387 | a parsed mark comes only from data that splits on ":" into exactly three parts, action:a:b, with a and b integers giving its id and index; its action holds no colon |
| Callbacks.ThreeParts | aiogram_media_approval_bot.py:377-381 | data whose split gives three parts is those parts joined by the separator, none of them holding it |
| Callbacks.ApprovalButtons | aiogram_media_approval_bot.py:143-149 | three buttons, routed to approve-all, reject-all and selective in that order |
| Callbacks.MarkData | aiogram_media_approval_bot.py:158-159 | the data f"{action}:{id}:{idx}" parses back to action, id and idx when the action holds no colon |
| Callbacks.MarkDataRoute | aiogram_media_approval_bot.py:158-159 | keep and remove data reach cb_keep_remove |
| Callbacks.KeepRemoveButtons | aiogram_media_approval_bot.py:156-161 | two buttons, both routed to cb_keep_remove, parsing back to ("keep", id, idx) and ("remove", id, idx) |
| Callbacks.FinalizeButtons | aiogram_media_approval_bot.py:151-154 | one button, routed to cb_finalize |
| Callbacks.CallbackIdAfterPrefix | aiogram_media_approval_bot.py:294 | the id of "prefix:rest" is int(rest); it is invalid when rest holds a colon |
| Callbacks.ParseMarkOf | aiogram_media_approval_bot.py:377-387 | "action:a:b" with colon-free parts parses exactly when a and b are integers |
| Callbacks.RouteApproveAll | aiogram_media_approval_bot.py:290-294 | "approve_all:" data reaches cb_approve_all and yields int of the rest |
| Callbacks.RouteRejectAll | aiogram_media_approval_bot.py:330-333 | "reject_all:" data reaches cb_reject_all and yields int of the rest |
| Callbacks.RouteSelective | aiogram_media_approval_bot.py:348-351 | "selective:" data reaches cb_selective and yields int of the rest |
| Callbacks.RouteFinalize | aiogram_media_approval_bot.py:405-408 | "finalize:" data passes the four earlier filters, reaches cb_finalize and yields int of the rest |
| Callbacks.RouteKeep | aiogram_media_approval_bot.py:375 | "keep:a:b" reaches cb_keep_remove |
| Callbacks.RouteRemove | aiogram_media_approval_bot.py:375 | "remove:a:b" reaches cb_keep_remove |
| Callbacks.ApprovalButtonsRoundTrip | aiogram_media_approval_bot.py:143-149 | each of the three buttons of a submission reaches its own handler with the submission's id |
| Callbacks.FinalizeButtonsRoundTrip | aiogram_media_approval_bot.py:151-154 | the finalize button reaches cb_finalize with the submission's id |
| Selection.Keep | aiogram_media_approval_bot.py:420 | with no decisions recorded every index is kept |
| Selection.Kept | aiogram_media_approval_bot.py:418-425 | the kept items are no more than the items |
| Selection.KeptIndices | aiogram_media_approval_bot.py:418-421 | every kept index is an index of the items |
| Selection.IsComplete | aiogram_media_approval_bot.py:400 | when every recorded index lies in [0, total), len(sel) == total exactly when every index has a decision |
| Selection.DecisionsOf | aiogram_media_approval_bot.py:416 | decisions are read only from a stored entry of that id |
| Selection.KeptIndicesSpec | aiogram_media_approval_bot.py:419-421 | the kept indices are exactly those with no decision or a keep decision, strictly ascending |
| Selection.KeptIsSelection | aiogram_media_approval_bot.py:419-425 | the kept items are the items at the kept indices, in that order |
| Selection.KeptEmptyIffAllRemoved | aiogram_media_approval_bot.py:420-426 | nothing is kept exactly when every index has an explicit remove |
| Selection.KeptAllWhenNoneRemoved | aiogram_media_approval_bot.py:420 | with no remove decision, every item is kept |
| Selection.IndexRange | aiogram_media_approval_bot.py:399 | the set of item indices of a submission is exactly [0, total) |
| Selection.IndexRangeSize | aiogram_media_approval_bot.py:399 | that set has total elements |
| Selection.CompleteIffAllDecided | aiogram_media_approval_bot.py:400 | when all recorded indices are in range, len(sel) == total exactly when every index has a decision |
| Selection.CountIsNotCoverage | aiogram_media_approval_bot.py:400 | decisions on indices 0 and 5 complete a two-item review in which index 1 is undecided |
| Selection.Decide | aiogram_media_approval_bot.py:388-394 | setdefault then assignment: the index holds the new decision; every other index of that id keeps its presence and value; other ids are unchanged |
| Selection.LastDecisionReplaces | aiogram_media_approval_bot.py:388-394 | a second decision on an index replaces the first |
| Selection.LastClickWins | aiogram_media_approval_bot.py:388-394 | after any series of clicks, an index holds its last click, or what it held before if never clicked |
| Media.CaptionFirst | aiogram_media_approval_bot.py:187-195 | the list keeps its length, and a first media with no caption of its own shows the given caption |
| Media.Arrange | aiogram_media_approval_bot.py:185-195 | one media per item, and the caption a reader sees is the given one |
| Media.ArrangeRoundTrip | aiogram_media_approval_bot.py:187-195 | the repost list has the items' files and kinds in order, the caption on the first media only and only when non-empty |
| Media.Publish | aiogram_media_approval_bot.py:197-205 | several media go out as one batch and one alone as a single post, and exactly the list given is sent |
| Media.BuildMedia | aiogram_media_approval_bot.py:185-195 | the enumerate loop builds the arranged list of the items with the caption |
| Media.CollectKept | aiogram_media_approval_bot.py:418-425 | the finalize loop collects exactly the kept items, in order, without caption |
| Media.FinalizedMedia | aiogram_media_approval_bot.py:418-433 | finalize's list is the kept items arranged under the row's caption |
| Media.SelectionPrompts | aiogram_media_approval_bot.py:363-372 | one prompt per item, in order |
| Media.ItemPromptsIndex | aiogram_media_approval_bot.py:363-370 | prompt j is the prompt for item j |
| Media.ItemPromptsAt | aiogram_media_approval_bot.py:363-370 | prompt j shows item j's file and its buttons parse back to keep/remove on item j of that submission |
| Pending.PendingStore.constructor | aiogram_media_approval_bot.py:66-85 | on first start the table is empty and the first id is 1 |
| Pending.PendingStore.Save | aiogram_media_approval_bot.py:87-98 | the row gets an id greater than every id issued before and is stored under it; ids are never reused |
| Pending.PendingStore.Get | aiogram_media_approval_bot.py:100-118 | the stored row for a present id, None for any other |
| Pending.PendingStore.Delete | aiogram_media_approval_bot.py:120-125 | that row is gone, every other row is unchanged, the id counter is unchanged |
| Intake.AlbumKey | aiogram_media_approval_bot.py:241 | the album buffer key is never empty |
| Intake.AlbumKeyInjective | aiogram_media_approval_bot.py:241 | two album messages share a key exactly when they share chat and media_group_id |
| Intake.DisplayName | aiogram_media_approval_bot.py:259 | the name shown is the username whenever it is set, otherwise the full name, and empty only when both are |
| Intake.ItemOf | aiogram_media_approval_bot.py:245-261 | the item's file is the last photo size, else the video; its kind is photo exactly when there is a photo; it carries the message's sender, chat, display name and caption |
| Intake.SingleSubmission | aiogram_media_approval_bot.py:281-282 | the row of a single message is well formed, not an album, and holds exactly that message's item |
| Intake.AlbumSubmission | aiogram_media_approval_bot.py:173-176 | the row of an album holds every buffered item in order, under the first item's identity and caption |
| Workflow.ForwardPosts | aiogram_media_approval_bot.py:180-215 | the approval group receives the row's arranged media, batched iff it has several items, then a new-submission notice in the approval group under the row's username and id, carrying the three buttons of the row |
| Workflow.RepostPosts | aiogram_media_approval_bot.py:312-322 | the main group receives the media, batched iff several, and then, unless the media failed, the attribution under the row's username |
| Workflow.FinalizeMedia | aiogram_media_approval_bot.py:416-433 | finalize publishes exactly the kept indices, in original order, with the caption on the first and nowhere else |
| Workflow.FinalizeWithoutRemovalsIsApproveAll | aiogram_media_approval_bot.py:419-433 | with no remove decisions, finalize publishes what approve-all would |
| Workflow.FinalizeNothingIffAllRemoved | aiogram_media_approval_bot.py:426-430 | finalize publishes nothing exactly when every item was removed |
| MediaBot.AppendArms | aiogram_media_approval_bot.py:254-269 | appending a part keeps "one flush task exactly for each key with items", creating the flush task iff the list was empty |
| MediaBot.DefaultKeepsArming | aiogram_media_approval_bot.py:242-253 | setdefault for an unsupported part keeps the flush-task invariant |
| MediaBot.PopDisarms | aiogram_media_approval_bot.py:169 | popping a key and ending its task keeps the flush-task invariant |
| MediaBot.Bot.constructor | aiogram_media_approval_bot.py:46-57 | on first start ADMIN_IDS is parsed and every store is empty with the first id 1 |
| MediaBot.Bot.Forward | aiogram_media_approval_bot.py:180-215 | nothing but the two forward requests is added, and only for an existing row |
| MediaBot.Bot.OnMessage | aiogram_media_approval_bot.py:222-287 | a message that fails the early returns changes nothing; every other message is handled as the album or single branch prescribes |
| MediaBot.Bot.Receive | aiogram_media_approval_bot.py:239-287 | an album part is buffered, a single photo or video becomes a forwarded row, anything else changes nothing |
| MediaBot.Bot.BufferAlbumPart | aiogram_media_approval_bot.py:240-270 | the part is appended under its key (an unsupported one only creates the entry) and the flush task is created iff the list was empty |
| MediaBot.Bot.AppendPart | aiogram_media_approval_bot.py:254-269 | the item goes last in its key's list, the reply is the new length, and the key is armed iff the list was empty |
| MediaBot.Bot.SubmitSingle | aiogram_media_approval_bot.py:273-284 | a row under the next id, then its forward requests |
| MediaBot.Bot.Flush | aiogram_media_approval_bot.py:167-177 | the key is popped and disarmed; with items, exactly one album row under the next id, then its forward requests; without, nothing else |
| MediaBot.Bot.Repost | aiogram_media_approval_bot.py:312-326 | the media then, unless the media failed, the attribution are requested; true only when both went out |
| MediaBot.Bot.ApproveAll | aiogram_media_approval_bot.py:290-328 | bad data, an id the database cannot bind, or an unknown id changes nothing; a failed repost keeps the row; a delivered one deletes it |
| MediaBot.Bot.ApproveRow | aiogram_media_approval_bot.py:298-328 | as ApproveAll, for a parsed id |
| MediaBot.Bot.RejectAll | aiogram_media_approval_bot.py:330-346 | bad data, an id the database cannot bind, or an unknown id changes nothing; otherwise the notice is attempted and the row deleted regardless |
| MediaBot.Bot.RejectRow | aiogram_media_approval_bot.py:337-346 | as RejectAll, for a parsed id |
| MediaBot.Bot.Selective | aiogram_media_approval_bot.py:348-373 | bad data, an id the database cannot bind, or an unknown id changes nothing; otherwise the row's decisions restart empty and one prompt per item is sent |
| MediaBot.Bot.StartSelection | aiogram_media_approval_bot.py:355-372 | as Selective, for a parsed id |
| MediaBot.Bot.KeepRemove | aiogram_media_approval_bot.py:375-403 | data that is not three parts with integer id and index changes nothing; otherwise "keep" keeps, anything else removes |
| MediaBot.Bot.MarkItem | aiogram_media_approval_bot.py:388-403 | the decision is recorded even without a row; the finalize button is sent iff the id can be looked up, the row exists and len(sel) equals its item count |
| MediaBot.Bot.OfferFinalize | aiogram_media_approval_bot.py:396-403 | only the finalize request is added, and only when the id can be looked up and its row exists and is complete by count |
| MediaBot.Bot.DropRow | aiogram_media_approval_bot.py:428-429 | the row and its decisions are gone, nothing else changes |
| MediaBot.Bot.Finalize | aiogram_media_approval_bot.py:405-450 | bad data, an id the database cannot bind, or an unknown id changes nothing; nothing kept drops row and decisions with no request; a failed repost keeps both; a delivered one drops both |
| MediaBot.Bot.FinalizeRow | aiogram_media_approval_bot.py:412-450 | as Finalize, for a parsed id |
| AlbumRace.AppendStep | aiogram_media_approval_bot.py:242-261 | the item goes last in the key's list; every other key keeps its presence and its list |
| AlbumRace.CheckStep | aiogram_media_approval_bot.py:268-269 | the key gains a flush task iff its list has length one at the check |
| AlbumRace.SequentialPartsFlushOnce | aiogram_media_approval_bot.py:254-269 | two parts handled one after the other create exactly one flush task |
| AlbumRace.InterleavedPartsNeverFlush | aiogram_media_approval_bot.py:254-269 | two parts whose handlers interleave at the await create no flush task although the buffer holds both |
| AlbumRace.DeleteErrorStrandsAlbum | aiogram_media_approval_bot.py:254-270 | when the first part's deletion raises after its append, it and the next part leave the album buffered with no flush task, breaking ArmedFor |
| AlbumRace.ArmBeforeDeleteFlushesOnce | aiogram_media_approval_bot.py:254-270 | deciding the flush task at the append, before the deletion, arms the key exactly once for two parts, whatever the deletion does |
| AlbumRace.CheckAtAppend | aiogram_media_approval_bot.py:268-269 | corrected check: the key gains a flush task iff the length its own append produced was one |
| AlbumRace.InterleavedCountedPartsFlushOnce | aiogram_media_approval_bot.py:254-269 | with the corrected check, the same interleaving creates exactly one flush task, in either order of the checks |
| Scenarios.StoreRoundTrip | aiogram_media_approval_bot.py:87-125 | two saves get ids 1 and 2 and read back as saved; a deleted row reads as missing and the other stays |
| Scenarios.AlbumBurst | aiogram_media_approval_bot.py:167-177 | two parts of an album: one flush task, one row holding both items in order under the first part's sender and caption |
| Scenarios.ApproveTwice | aiogram_media_approval_bot.py:298-301 | after a delivered approve-all, approve-all and reject-all on the same button data find no row |
| Scenarios.RejectAfterFailedApprove | aiogram_media_approval_bot.py:323-346 | a failed approve keeps the row, reject then removes it, and a later approve finds nothing |
| Scenarios.SelectiveRound | aiogram_media_approval_bot.py:348-450 | Selective, Keep on item 0, Remove on item 1 and Finalize, each pressed with its button's callback data, post item 0 of an album alone under the album's caption |
| Scenarios.KeepFirstOfTwo | aiogram_media_approval_bot.py:419-425 | keep 0 and remove 1 keep only the first of two items |
| Scenarios.KeepThenRemove | aiogram_media_approval_bot.py:388-394 | keep on 0 then remove on 1 of a fresh review leaves {0: keep, 1: remove} |

## Left out

- Network I/O is not modelled: the aiogram `Bot` and `Dispatcher`, every `send_*` call, `callback.answer` and `message.reply`. Requests are recorded in `posts` as abstract posts. Replies are the `Reply` value, without their wording.
- `message.delete()` is not modelled. The model assumes it either succeeds or raises `TelegramBadRequest`, which the handler ignores (:263-266, :277-280). Any other error leaves the handler: a rate limit, a forbidden error, a network error or a server error.
  - In the album branch (:263-266) the part is already appended and the flush test never runs. `AlbumRace.DeleteErrorStrandsAlbum` shows the album then never flushes (see Findings).
  - In the single branch (:277-280) nothing is saved or forwarded, and the message stays in the group.
- MediaBot.Bot.OnMessage: models only the messages the dispatcher hands to `on_message_handler`. `cmd_start_handler` is registered before it (:218). aiogram's `Command` filter also reads a message's caption, so a photo or video captioned "/start" goes to that handler, and is neither deleted nor submitted.
- Partial delivery of forwards and selective prompts is not modelled. Both are always attempted, and their failures change no state, so `posts` lists them as attempted.
- The outcome of a repost is an input (`Delivery`), not the result of a call.
- Timers and concurrency are not modelled: `asyncio.sleep`, `create_task`, uvloop and the 2-second wait. The flush task is the explicit operation `Flush(key)`, and handlers run one at a time. `AlbumRace` models the interleaving at the deletion and a deletion that raises, the two ways an album is lost (see Findings).
- MediaBot.Bot.Flush: may be called for any key, armed or not, so it also covers a flush with no pending task.
- SQLite, the JSON payload and `created_at` are not modelled. The table is a map plus an id counter.
- `chat_id` is stored as text in the table. The model keeps it as the integer it came from.
- Emoji, message wording and keyboard layout are not modelled. Only the `callback_data` strings are.
- Reading the environment, the `SystemExit` check, logging and `/start` are not modelled. The constructor takes MAIN_GROUP_ID and ADMIN_IDS as strings. APPROVAL_GROUP_ID and the `int()` of the group ids used for sending are replaced by the targets `MainGroup` and `ApprovalGroup`.
- Text.Strip: strips ASCII whitespace only. Python's `str.strip()` at aiogram_media_approval_bot.py:50 also removes Unicode whitespace.
- Pending.PendingStore.constructor: states the first start only. The table lives in a file and is created with `CREATE TABLE IF NOT EXISTS`, so after a restart the rows and the AUTOINCREMENT counter are those left by the previous run.
- MediaBot.Bot.constructor: states the first start only. After a restart the pending rows and the id counter persist; only the album buffer, the flush tasks and the selection store start empty.
- Pending.PendingStore.Save: ids grow without bound. SQLite's AUTOINCREMENT stops at 2^63 - 1 and then fails the insert.
- Text.PyInt: accepts an optional sign followed by ASCII digits, with ASCII whitespace stripped. Python's `int()` also accepts underscores, Unicode digits and Unicode whitespace; the model does not.
- MediaBot.Bot.Valid: requires pending rows and buffered items to come from non-admins. It does not record that they came from the main group, because the stored chat id is not compared with MAIN_GROUP_ID anywhere after admission.
- A message whose sender or chat is missing is not modelled: the `Message` datatype always has both.

## Findings

| source | as written | input that shows it | evidently intended | confidence | as-written member | corrected member |
|---|---|---|---|---|---|---|
| aiogram_media_approval_bot.py:254-269 | the album branch appends the part, awaits `message.delete()`, and only then creates the flush task if `len(arr) == 1` | parts x and y of one album: y is appended while x's handler awaits the deletion, so both handlers see two items and neither creates the flush task; the album stays in `media_buffer` and never becomes a pending row | decide whether to create the flush task from the list as it was at the append (the comment says "schedule flush only when first item arrives") | medium, not executed | AlbumRace.InterleavedPartsNeverFlush | MediaBot.Bot.AppendPart |
| aiogram_media_approval_bot.py:254-270 | the album branch appends the part, then awaits `message.delete()`, catching only `TelegramBadRequest`, and only then creates the flush task if `len(arr) == 1` | the deletion of the first part x raises another error (a rate limit, a network error): the handler ends with x buffered and no flush task, and the next part y sees a list of two, so the album never becomes a pending row | create the flush task before the deletion, or ignore every error of the deletion | medium, not executed | AlbumRace.DeleteErrorStrandsAlbum | AlbumRace.ArmBeforeDeleteFlushesOnce |
