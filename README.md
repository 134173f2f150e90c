# A verified model of the Get It Done kanban board

Get It Done is a to-do application. A Flask server keeps accounts, personal tasks and shared
("collaboration") lists in sqlite. Browser scripts show the tasks as cards in three status
columns (backlog, in progress, completed), and let the user add, edit, delete (with a
five-second undo), drag between columns and sort them.

This project models both halves and proves what each operation does.

- **Server** (`store.dfy`, `accounts.dfy`, `personal_tasks.dfy`, `collaboration.dfy`). The
  databases are one `Store` object. Its tables are maps from the AUTOINCREMENT id to the row,
  and the member table is a set of `(list, user)` pairs. The invariant `Store.Valid` holds the
  column constraints of `database.py` (UNIQUE, NOT NULL, ids below the next id). It also holds
  two facts that the schema does not enforce but the routes maintain: every status is one of
  the three, and every list owner is a member. Every route keeps the invariant. The Flask session is a
  `Session` object. A route's answer is a `Response`: JSON with a code, a redirect, a rendered
  template, plain text, or Flask's 500 page for an uncaught exception.
- **Client** (`board.dfy` and one module per script). The document is a `Page` object holding
  the card containers ("zones") in document order, the cards appended straight to the body,
  the toasts, the alerts and the reload count. Every element has a DOM identity besides its
  `data-id`. The page invariant is that no identity occurs twice. A request and the reply it
  gets are one step: the reply is a parameter, either a parsed JSON object or a failure of the
  `fetch(...).then(res => res.json())` chain.
- **Both together** (`exchange.dfy`). `ClientView` is what a route's answer becomes in the
  script that sent the request. Lemmas there connect the requests the scripts build to the
  routes that answer them.
- **Shared pieces**: `text.dfy` (JavaScript `trim`, Python `strip` and `split`, the
  time-matching regular expressions, `toString`/`padStart`, class tokens), `json.dfy` (values,
  replies, requests) and `sort.dfy` (the card comparator and the stable array sort).

## Model

| member | source | states |
|---|---|---|
| Store.HashOf | app.py:72-73 | the stored hash of a password accepts that password |
| Store.Get | personal_tasks.py:60-63 | `data.get(key)` is `None` for a missing key and never undefined |
| Store.ErrorReply | personal_tasks.py:56-57 | an error answer is a JSON body holding only `error`, with the given code |
| Store.Store.constructor | database.py:13-82 | freshly created tables are empty, every id counter is 1, and the invariant holds |
| PersonalTasks.ProfilePartition | personal_tasks.py:25-42 | the three profile columns partition the shown tasks: each shown task is in exactly one column, unchanged, under its status, and nothing else is listed |
| PersonalTasks.TaskEcho | personal_tasks.py:75 | the echo holds exactly the new id and the four task fields as sent |
| PersonalTasks.NewTask | personal_tasks.py:70-72 | the inserted row is the session user's, in the backlog, with the four fields as sent |
| PersonalTasks.AddTask | personal_tasks.py:54-75 | 401 without a session, 400 for a falsy name, otherwise exactly one new row under the next id, echoed; the invariant is kept |
| PersonalTasks.EditTask | personal_tasks.py:77-89 | the four fields are overwritten with owner and status kept; a null name is a 500 and a missing id a no-op; nothing else changes |
| PersonalTasks.DeleteTask | personal_tasks.py:91-97 | the row is gone and the answer is a success, whether or not it existed |
| PersonalTasks.UpdateTaskStatus | personal_tasks.py:99-109 | an invalid status is refused with nothing changed; a valid one replaces only that row's status |
| Accounts.UserRow | database.py:61 | a username names at most one account |
| Accounts.RegisterError | app.py:65-70 | the password length is checked before the `@`; no error exactly when both checks pass |
| Accounts.InsertUniqueIff | app.py:75-86 | the new account passes the UNIQUE constraints exactly when neither its username nor its email is in use |
| Accounts.ResetLogsIn | app.py:101-105 | after a reset the user logs in with the new password and with no other; a username with no account logs in with nothing |
| Accounts.RenameUniqueIff | app.py:154-183 | the profile UPDATE passes the UNIQUE constraints exactly when no other account holds the new username or email |
| Accounts.RenameKeepsLogin | app.py:157-160 | a profile edit with a blank password keeps the same passwords working, under the new username |
| Accounts.Login | app.py:25-45 | the pending message is taken out and shown; the session user is set exactly when the stored hash accepts the password |
| Accounts.Register | app.py:53-88 | the form errors in order, then "already exists" exactly when the username or email is in use, otherwise one new account with both answers hashed |
| Accounts.EditPassword | app.py:90-110 | a password shorter than 8 is refused; any other replaces the hash of the named user and no other |
| Accounts.ForgotPassword | app.py:112-134 | unknown user, wrong answer and correct answer are told apart, and only the correct answer leads to the reset page |
| Accounts.EditProfile | app.py:136-185 | unknown user, short non-blank password and UNIQUE clash are refused with nothing changed; otherwise the row is renamed, the password kept when blank, and the session follows the new name |
| Collaboration.ParseJoined | collaboration.py:65 | typing clean names separated by commas gives exactly those names back |
| Collaboration.ParsedNamesClean | collaboration.py:65 | every parsed name holds no comma and no blank at either end |
| Collaboration.Candidates | collaboration.py:84-95 | the inserted names are exactly the parsed names that are non-empty, not the owner, and existing accounts |
| Collaboration.DuplicateIff | collaboration.py:84-95 | an insert breaks the members' UNIQUE key exactly when an invitable name is given twice |
| Collaboration.MemberRows | collaboration.py:90-93 | the inserted rows are those of the list and the inserted names, and no others |
| Collaboration.InsertInvited | collaboration.py:84-95 | the loop fails exactly when a candidate repeats, and otherwise adds exactly one row per candidate |
| Collaboration.CreateCollaboration | collaboration.py:53-103 | without a session the browser goes to login; a repeated member rolls everything back with a 500; otherwise one new list whose members are exactly the owner and the invited names |
| Collaboration.ViewCollaboration | collaboration.py:118-148 | the page is shown exactly to members of the list, and then the list exists |
| Collaboration.AddCollabMember | collaboration.py:175-214 | the 401, 400, 403, 404 and "already a member" cases in order; otherwise the members grow by exactly the named user |
| Collaboration.NewCollabTask | collaboration.py:243-246 | the inserted task is in the backlog, created by the session user, with the four fields as sent |
| Collaboration.AddCollabTask | collaboration.py:216-258 | 401, 400 for a falsy name, 403 for a non-member; otherwise exactly one new task, echoed with its creator |
| Collaboration.OwnerMayDelete | collaboration.py:313-321 | the owner of a list may delete every task of it |
| Collaboration.CreatorMayDelete | collaboration.py:303-321 | a creator may delete the task exactly while they are a member of its list |
| Collaboration.EditCollabTask | collaboration.py:260-291 | only a member of the task's list may edit; a null name is a 500; otherwise the four fields are overwritten and nothing else |
| Collaboration.DeleteCollabTask | collaboration.py:293-326 | the task is deleted exactly when the user is a member and created it or owns the list |
| Collaboration.UpdateCollabTaskStatus | collaboration.py:328-355 | the status is validated before access; a member then changes the status and nothing else |
| Exchange.ClientView | static/taskCreation.js:81 | a JSON answer parses into its body, whatever its code; other answers fail the chain |
| Exchange.CreatedCard | personal_tasks.py:54-75 | the add form's request stores the typed task in the backlog, and the echo builds the card the form asked for |
| Exchange.CreatedCollabCard | collaboration.py:216-258 | on a collaboration page the request goes to the list's route and the card shows its creator |
| Exchange.RefusedCreate | static/taskCreation.js:85-137 | a refused create parses but builds no card |
| Exchange.ModalEdit | get-it-done/static/taskEdit.js:124-129 | the edit modal never sends a null name, so the edit routes never fail on `NOT NULL` for it, and their success is what the modal accepts |
| Exchange.MoveStatus | static/taskDragDrop.js:92-123 | a drop is accepted by the status routes exactly when the column's status is one of the three |
| Text.TrimEmptyIffBlank | static/taskCreation.js:57-65 | a trimmed string is empty exactly when the string is all whitespace, and otherwise has none at its ends |
| Text.TrimIdempotent | get-it-done/static/taskEdit.js:109-113 | trimming twice is trimming once, and a string without whitespace at its ends is its own trim |
| Text.SplitJoin | collaboration.py:65 | joining the pieces of a split with the separator gives the string back |
| Text.JoinSplit | collaboration.py:65 | splitting joined pieces that lack the separator gives the pieces back |
| Text.IndexOf | static/taskDeletion.js:60 | the first index where the pattern occurs, or none when it never occurs |
| Text.ReplacePrefix | static/taskDeletion.js:60 | removing the "Created by: " label gives back the name that followed it |
| Text.PadDecimalOfDigits | get-it-done/static/taskEvents.js:52-58 | `parseInt`, `toString` and `padStart` give back a one- or two-digit field padded to two |
| Text.FirstTimeFrom | get-it-done/static/taskEvents.js:52 | the leftmost position from which the time pattern matches, or none when it matches nowhere |
| Text.ReplaceTimeLine | static/taskDeletion.js:18 | when the time sits alone on a line, exactly that line is replaced by the time |
| Text.ReplaceTimeAbsent | static/taskDeletion.js:18 | text without a time is kept as it is |
| Text.WordsSingle | get-it-done/static/taskEvents.js:73 | a non-empty class name without blanks is one token |
| Text.Capitalize | get-it-done/static/taskEvents.js:89 | the badge text is the priority with only its first letter upper-cased |
| TaskEvents.PrioOf | get-it-done/static/taskEvents.js:73 | a card has a priority class exactly when that name is one of its class tokens |
| TaskEvents.PrioOfName | get-it-done/static/taskEvents.js:73 | the class `task-card <p>` names exactly priority p |
| TaskEvents.BuildCard | get-it-done/static/taskEvents.js:68-110 | a card is built exactly when the priority is a string; it then shows the reply's id, name, date, time, priority and, on a collaboration page, the creator |
| TaskEvents.Attached | get-it-done/static/taskEvents.js:9-38 | the card becomes draggable and wired and nothing else changes |
| TaskEvents.IdOf | get-it-done/static/taskEvents.js:74 | `dataset.id` is the attribute's text, or undefined without one |
| TaskEvents.OnDeleteClick | get-it-done/static/taskEvents.js:19-31 | a confirmed click on a wired card deletes through the collaboration route exactly when the card is a collaboration card |
| TaskEvents.OnEditClick | get-it-done/static/taskEvents.js:34-37 | a click on a wired card opens the modal for its id and kind |
| TaskEvents.AddSecondsDisplay | get-it-done/static/taskEvents.js:40-48 | a card with a date-time gets an empty seconds display and its text stays the same; other cards are unchanged |
| TaskEvents.HoverText | get-it-done/static/taskEvents.js:50-61 | no text exactly when the trimmed text holds no time; otherwise the padded hours, the minutes and the padded seconds |
| TaskEvents.HoverShape | get-it-done/static/taskEvents.js:58 | the hover text always has the shape HH:MM:SS |
| TaskEvents.Hovered | get-it-done/static/taskEvents.js:50-61 | the seconds display shows the hover text when there is one, and the card is unchanged otherwise |
| TaskEvents.Left | get-it-done/static/taskEvents.js:63-65 | leaving empties the seconds display |
| TaskEvents.CreateTaskElement | get-it-done/static/taskEvents.js:68-110 | the built card takes a fresh identity that is not on the page |
| TaskEvents.MouseEnter | get-it-done/static/taskEvents.js:50-61 | the hovered card on the page is patched in place and the page invariant holds |
| TaskEvents.MouseLeave | get-it-done/static/taskEvents.js:63-65 | the left card on the page is patched in place and the page invariant holds |
| Sort.Rank | static/taskDragDrop.js:13-15 | the rank is that of the first of high, mid, low the card carries, or none |
| Sort.SortPerm | static/taskDragDrop.js:12-26 | sorting is a permutation of the zone's cards |
| Sort.SortCount | static/taskDragDrop.js:12-26 | sorting adds no element and loses none |
| Sort.LessDiffers | static/taskDragDrop.js:17-25 | cards of equal rank and equal timestamp never sort before one another |
| Sort.SortStable | static/taskDragDrop.js:12-26 | with a consistent comparator, cards of equal rank and timestamp keep their prior order, as `Array.prototype.sort` is stable |
| Sort.SortRankSorted | static/taskDragDrop.js:17-20 | with a consistent comparator, ranks never decrease after the sort |
| Sort.SortFullySorted | static/taskDragDrop.js:17-25 | when every card has a rank and a readable date, the result is sorted by rank and then by ascending timestamp |
| Sort.Reorder | static/taskDragDrop.js:28 | re-appending the cards one by one in sorted order leaves the zone in exactly that order |
| Sort.SortZone | static/taskDragDrop.js:9-29 | exactly the one zone is replaced by its sorted cards, and the page invariant holds |
| TaskSort.SortTasks | get-it-done/static/taskSort.js:1-24 | only the first `.not-yet-started` container is sorted, by its date-time text; without one nothing changes |
| TaskSort.UndatedKeepOrder | get-it-done/static/taskSort.js:18-19 | ranked cards without a date-time element compare as NaN, so cards of one rank among them keep their order |
| DragDrop.SortTasks | static/taskDragDrop.js:5-30 | a given container is sorted alone; otherwise every drop zone is sorted, each independently |
| DragDrop.ToastText | static/taskDragDrop.js:169-175 | the toast names a column exactly when the status is one of the three, and reads "Task undefined!" otherwise |
| DragDrop.Cleared | static/taskDragDrop.js:103-106 | a personal move empties a `data-empty` zone and drops the attribute; a collaboration move empties a zone holding a placeholder; other zones stay |
| DragDrop.MoveRequest | static/taskDragDrop.js:93-97 | the drop sends `PUT` with the new status to the route of the card's kind |
| DragDrop.MoveCard | static/taskDragDrop.js:100-108 | the card leaves its place, the target is cleared, and the card sits once on the page, in the target |
| DragDrop.MoveAndSort | static/taskDragDrop.js:100-113 | the move, then the target zone sorted, then one toast for the status |
| DragDrop.Drop | static/taskDragDrop.js:72-88 | drag-over goes; nothing is sent unless the dragged card and a status exist; a success moves, sorts and toasts; any other reply reloads the page |
| DragDrop.DragStart | static/taskDragDrop.js:37-45 | the transfer holds the id of the card as it stands on the page, and that card gets `dragging` |
| DragDrop.Calm | static/taskDragDrop.js:50-52 | a drop zone loses `drag-over` and nothing else changes |
| DragDrop.DragEnd | static/taskDragDrop.js:47-53 | the card on the page loses `dragging` and every drop zone loses `drag-over` |
| DragDrop.CalmAll | static/taskDragDrop.js:50-52 | every zone is calmed, each in place |
| DragDrop.DragOver | static/taskDragDrop.js:57-64 | a drop zone gets `drag-over` and nothing else changes |
| DragDrop.DragLeave | static/taskDragDrop.js:66-70 | a drop zone loses `drag-over` only when the mouse pointer left for an element outside it |
| DragDropLite.Drop | get-it-done/static/taskDragDrop.js:51-107 | as the other drop, but the moved card stays last in its zone and nothing is sorted |
| TaskCreation.FirstOf | static/taskCreation.js:87-98 | the first container of the most preferred selector that any container matches, or none exactly when no selector matches |
| TaskCreation.TargetIsPreferred | static/taskCreation.js:87-98 | the fallback chain picks the first container of the first selector that matches |
| TaskCreation.NoTarget | static/taskCreation.js:87-102 | no container is found exactly when no container matches any selector |
| TaskCreation.AddTaskForm.constructor | static/taskCreation.js:5-9 | the form starts with an empty name and time and the button reading "Add Task" |
| TaskCreation.AddTaskForm.ResetLabel | static/taskCreation.js:117-121 | the timer restores the label and the inputs keep their values |
| TaskCreation.AddTaskForm.StopShake | static/taskCreation.js:138-145 | the shake animation ends |
| TaskCreation.AddTaskForm.Escape | static/taskCreation.js:22-25 | Escape in the focused input empties and blurs it, and does nothing elsewhere |
| TaskCreation.AddTaskForm.Type | static/taskCreation.js:56-79 | the form holds the typed values |
| TaskCreation.PlaceNewCard | static/taskCreation.js:87-109 | the new card goes last into the first container of the fallback chain, whose placeholder goes, or into the body when there is none |
| TaskCreation.PlaceInZone | static/taskCreation.js:104-109 | the placeholder of the zone goes and the card is appended once |
| TaskCreation.Receive | static/taskCreation.js:81-137 | a failed request or a reply without a string priority reads "Error" and keeps the inputs; any other reply places the built card, reads "Added!" and empties the name and time |
| TaskCreation.HandleAddTask | static/taskCreation.js:56-79 | a blank name shakes and sends nothing; otherwise the request carries the trimmed name, to the route of the page's kind |
| TaskDeletion.SnapPriority | static/taskDeletion.js:15-16 | the snapshot records high, else mid, else low |
| TaskDeletion.Clone | static/taskDeletion.js:21 | the copy has a new identity, no listeners and the same date-time text |
| TaskDeletion.TakeSnapshot | static/taskDeletion.js:12-21 | the snapshot holds the id, priority, the time as the regular expression leaves it, the creator and a clone of the card |
| TaskDeletion.AlertText | static/taskDeletion.js:98 | a refusal alerts the server's error, or the default text without one |
| TaskDeletion.Countdown | static/taskDeletion.js:129-141 | the countdown starts at its value and ends at zero |
| TaskDeletion.CountdownValues | static/taskDeletion.js:129-141 | untouched, the countdown shows 5, 4, 3, 2, 1, 0 and never a negative value |
| TaskDeletion.UndoNotification.constructor | static/taskDeletion.js:108-128 | the notification starts counting from 5 |
| TaskDeletion.UndoNotification.Tick | static/taskDeletion.js:132-140 | one tick lowers the count by one and clears the interval at zero |
| TaskDeletion.UndoNotification.RunDown | static/taskDeletion.js:129-141 | the interval runs until it clears itself, showing exactly the countdown values |
| TaskDeletion.UndoNotification.Removed | static/taskDeletion.js:139 | the notification leaves the document after the interval is cleared |
| TaskDeletion.DeleteTaskWithUndo | static/taskDeletion.js:10-49 | a success removes the card and starts the undo notification with the snapshot; a failure resets the fade and keeps the card |
| TaskDeletion.WithPlaceholder | static/taskDeletion.js:81-90 | an emptied origin zone gets exactly one placeholder; other zones stay |
| TaskDeletion.DeleteCollabTaskWithUndo | static/taskDeletion.js:51-106 | as the personal delete, plus the placeholder of an emptied zone, and an alert for a parsed refusal |
| TaskDeletion.RemoveFromCollab | static/taskDeletion.js:76-90 | the card goes and an emptied origin zone gets its placeholder |
| TaskDeletion.RefuseCollab | static/taskDeletion.js:94-105 | the fade is reset, and only a parsed refusal is alerted |
| TaskDeletion.FirstPlaceholder | static/taskDeletion.js:223-226 | the first zone holding a placeholder, or none |
| TaskDeletion.DropPlaceholder | static/taskDeletion.js:223-226 | the placeholder of the parent goes; for the body, the first placeholder of the document |
| TaskDeletion.Restored | static/taskDeletion.js:169-180 | the restored card takes the server's id and, on the collaboration path, its creator |
| TaskDeletion.PutBack | static/taskDeletion.js:169-180 | the clone goes back once into its original parent, with handlers and a seconds display |
| TaskDeletion.PutBackCollab | static/taskDeletion.js:211-231 | the clone goes back once into its original parent, whose placeholder goes |
| TaskDeletion.RestoreFromReply | static/taskDeletion.js:156-247 | any parsed reply puts the card back with the reply's id; a failed request changes nothing |
| TaskDeletion.UndoClick | static/taskDeletion.js:144-196 | on the first click the interval is cleared, the create request rebuilt from the snapshot is sent and "Task restored!" is shown, whatever the reply |
| TaskDeletion.SnapshotTimeAbsent | static/taskDeletion.js:18 | a built card whose time holds no clock keeps the whole time cell text |
| TaskDeletion.SnapshotTimePresent | static/taskDeletion.js:18 | a built card's time cell spans three lines, so the snapshot keeps the clock framed by the template's breaks and indentation |
| TaskDeletion.SnapshotOfBuiltCard | static/taskDeletion.js:12-21 | deleting a card built from a reply records the reply's name, date, priority, id and creator |
| TaskEdit.TextValue | get-it-done/static/taskEdit.js:23-25 | a text input drops exactly the line feeds and carriage returns, and keeps a value without them as it is |
| TaskEdit.DateValue | get-it-done/static/taskEdit.js:43 | a date input keeps exactly the valid date strings and empties anything else |
| TaskEdit.TimeValue | get-it-done/static/taskEdit.js:47 | a time input keeps exactly the valid time strings and empties anything else |
| TaskEdit.TrimValue | get-it-done/static/taskEdit.js:11-12 | trimming a date or time value, or removing the clock from it, gives it back |
| TaskEdit.PrefillPriority | get-it-done/static/taskEdit.js:35-39 | the select shows the last of high, mid, low on the card, or high without any |
| TaskEdit.Prefill | get-it-done/static/taskEdit.js:8-47 | the modal opens with the card's name without line breaks, its priority, and the trimmed date and time kept only when their inputs accept them |
| TaskEdit.EditRequest | get-it-done/static/taskEdit.js:119-129 | the request goes to the route of the card's kind and carries the trimmed name and the other values |
| TaskEdit.Edited | get-it-done/static/taskEdit.js:133-146 | the card shows the new name, priority, date and time, and every other part of it, date-time text included, is untouched |
| TaskEdit.EditRoundTrip | get-it-done/static/taskEdit.js:8-146 | opening the modal again after a save shows what was saved, with the name trimmed |
| TaskEdit.PrefillOfBuiltCard | get-it-done/static/taskEdit.js:8-47 | editing a card just built from a reply opens with the reply's values |
| TaskEdit.EditModal.constructor | get-it-done/static/taskEdit.js:7-47 | the modal opens prefilled from the card, with the name focused |
| TaskEdit.EditModal.Close | get-it-done/static/taskEdit.js:87-104 | cancel, backdrop and Escape close the modal |
| TaskEdit.EditModal.Type | get-it-done/static/taskEdit.js:23-47 | a typed name loses its line breaks, and typed dates and times are kept only when the inputs accept them |
| TaskEdit.EditModal.Submit | get-it-done/static/taskEdit.js:106-129 | an empty name is blocked by the input's `required` (line 27) and changes nothing; a whitespace-only name shakes and sends nothing; otherwise the button is disabled and the edit request sent |
| TaskEdit.EditModal.ResetSave | get-it-done/static/taskEdit.js:152-159 | the timer restores and enables the save button |
| TaskEdit.PatchEdited | get-it-done/static/taskEdit.js:133-146 | the edited card is patched wherever it is now, and nothing changes if it is gone |
| TaskEdit.Receive | get-it-done/static/taskEdit.js:130-160 | a success patches the card, closes the modal and sorts a personal list; a parsed failure changes nothing; a failed request reads "Error" |

## Left out

- The document is flattened to containers and body cards. Nested markup, `innerHTML` templates,
  escaping, styles, animations, focus and blur scaling, and the `new-task` class are not modelled.
- `new Date(text)` is the parameter `Page.parse`. The clock, the timers and `Math.random` are
  parameters or explicit steps (`Tick`, `ResetLabel`, `StopShake`, `ResetSave`).
- Both deletes, `TaskDeletion.DeleteTaskWithUndo` and `TaskDeletion.DeleteCollabTaskWithUndo`,
  remove the card and show the notification 300 ms after a successful reply. The model takes
  the removal as part of the reply step, so the fading card, which stays clickable and
  draggable for those 300 ms, is not modelled. The notification also slides out for 300 ms
  after its interval ends.
- `TaskDeletion.UndoClick`: the model takes at most one Undo click per notification
  (`clicked`). In the source the button has no guard and stays in the document while the
  notification slides out, so a second click is possible. It sends a second create request.
  Each reply attaches another set of handlers, each with its own captured id, and on the
  personal page another live seconds display. A trash click on that card then shows two
  confirmations and can send two deletes, and a pen click opens two modals. The card has one
  set of handlers and one live display in the model (`Card.wired`, `Card.seconds`).
- Each request and its reply form one step. Interleavings of concurrent requests, and the
  user acting between a request and its reply, are not modelled.
- Console logging in the browser and in the server is left out: it changes no state.
- Character classes: JavaScript `trim` and Python `strip` use fixed whitespace sets, and
  `toUpperCase` changes only ASCII letters.
- `personal_tasks.py:8` names `todo.db` while `database.py:5` creates its table in
  `tododatabase.db`. The model assumes the tasks table exists.
- The model assumes every JSON request body is an object whose values are strings, integers,
  booleans or null. It also assumes every form has the fields its route reads. The routes read
  the body themselves, after any session check: `add_task` answers 401 without a session
  whatever the body (`personal_tasks.py:56-58`).
- Other bodies are not modelled. A body that is not JSON makes `get_json()` end the request
  with a 400 or 415. A body that parses to a non-object (`[1]`, `null`) makes `data.get` raise,
  so the route answers 500. A list or object field makes sqlite's parameter binding raise, also
  a 500. A non-integer number is stored as a REAL. A missing form field ends the request with a 400.
- GET pages, template rendering, `home`, `logout`, `collaboration()` and `get_collab_lists` are
  read-only and are not modelled. `ViewCollaboration` decides only who may see the page.
- sqlite's type affinity and the order of rows in a SELECT are not modelled. The profile
  columns are maps.
- werkzeug's salted hashing is the abstract `Hash`.
- `url_for` is a fixed path per route. Percent-encoding of usernames in redirects is not modelled.
- `ViewCollaboration` has a "Collaboration not found." branch in the source. Under the
  invariant it is never taken, and the model proves that instead of modelling it.
- `Sort.SortCards`: `Array.prototype.sort` leaves the order implementation-defined when the
  comparator is inconsistent. That happens with a card without high, mid or low among ranked
  cards, or with readable and unreadable timestamps in one rank. The insertion sort fixes one
  permitted order. So `Sort.SortStable`, `Sort.SortRankSorted` and `TaskSort.UndatedKeepOrder`
  are stated only under `Sort.Coherent`, where every stable sort gives the same order.
  `SortPerm` and `SortCount` hold for any order.
- The edit modal's name input: the browser's validation message for an empty `required`
  name is not modelled (`TaskEdit.EditModal.Submit` only sends nothing).
- `DragDrop.ToastText`: its contract states only that the toast names a column exactly for
  the three statuses. The three column texts are in its body, not its contract. A status
  that names a member of `Object.prototype` (`constructor`, `__proto__`, `toString`, ...)
  reads that member from the map in the source ("Task function Object() { [native code] }!"),
  not `undefined`. The model gives "Task undefined!" for it. The routes refuse such statuses
  (`Exchange.MoveStatus`), so only a reply not from these routes could lead there.
- The edit modal's success path does not update the `.date-time` element. So the single-list
  sort after an edit still reads the old date (`TaskEdit.Edited`).
- A create reply whose `priority` is not a string makes `createTaskElement` throw, which the
  same promise chain catches. The button then reads "Error" (`TaskCreation.Receive`).
