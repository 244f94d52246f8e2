# CollaboCraft client: real-time editing core in Dafny

This project models the core of the CollaboCraft web client's real-time
collaboration. Several users edit a document made of ordered text blocks. The
client keeps a local list of blocks and sends local edits over one shared
SignalR hub connection. It also merges the blocks and edits that the hub
broadcasts. The model covers five parts:

- **Block list of the editing session** (`BlockStore`, `DocumentEditor`).
  Four operations change the list: the initial load, a received block (placed
  right after the focused block, or else at the end), a remote edit (whole-block
  substitution by id) and a local edit (text only, by id).
- **Edit coalescer** (`EditCoalescer`, `DocumentEditor.EditorSession`). One
  debounced `save` serves every block. Each call replaces the pending
  `(id, text)`. When the quiet period elapses, one `EditBlock` goes out.
  Time is not modelled: the quiet period ending is an explicit event.
- **Connection guard** (`SignalR`). This covers the connection state, the
  `isConnecting` flag, and `startConnection` / `sendMessage` /
  `stopConnection`. `startConnection` is split at its `await`, so overlapping
  calls can be expressed. The outcome of `start()` and of a transport send
  are parameters.
- **Document list and creation form** (`DocumentList`). The document list
  changes under the hub's `DocumentCreated` / `DocumentDeleted` events. The
  form has invite rows, a request builder that trims and drops blank user
  names, and a parser that reads the not-found users out of an error message.
- **Registration form** (`Register`). An ordered first-failure check runs over
  five required fields.

`JsText` models the JavaScript string behaviour the code relies on:
`trim()`, `\s`, `.`, `includes`, and `${n}` for integers. The record types
become the datatypes in `Models`.

A reader of a collaborative editor might expect three behaviours that this
client does not have. The model follows the code and proves what it does
instead:
- A reader might expect a block that arrives twice to be stored once. In fact
  `ReceiveBlock` does not de-duplicate ids (`BlockStore.ReceiveDuplicateId`).
- A reader might expect an edit of an unknown block to insert it (an upsert).
  In fact `BlockEdited` for an unknown id is a no-op
  (`BlockStore.BlockEditedUnknownIsNoOp`).
- A reader might expect one debouncer per block. In fact one debouncer serves
  all blocks, so an edit to block A that is followed within the quiet period
  by an edit to block B is never sent (`EditCoalescer.OtherBlockSupersedes`).

## Model

| member | source | states |
|---|---|---|
| `Models.RoleName` | src/models/document.ts:7 | every role travels as one of the three names `Creator`, `Editor`, `Viewer` |
| `Models.RoleNameInjective` | src/models/document.ts:7 | two roles have the same name exactly when they are the same role |
| `Models.IsRoleNameIff` | src/models/document.ts:7 | a string is a role name exactly when it is the name of some role |
| `JsText.TrimStart` | src/components/DocumentList.tsx:70 | the result is a suffix of the input; everything dropped is white space; the result does not start with white space |
| `JsText.TrimEnd` | src/components/DocumentList.tsx:70 | the result is a prefix of the input; everything dropped is white space; the result does not end with white space |
| `JsText.Trim` | src/components/DocumentList.tsx:70 | a trimmed name is no longer than the input and neither starts nor ends with white space |
| `JsText.TrimIsMiddle` | src/components/DocumentList.tsx:70 | the trimmed name is a middle slice of the input, and everything cut off before and after it is white space |
| `JsText.TrimBlankIff` | src/components/DocumentList.tsx:70-71 | a name trims to the empty string exactly when it is all white space |
| `JsText.TrimIdempotent` | src/components/DocumentList.tsx:70 | trimming twice equals trimming once |
| `JsText.IndexOf` | src/components/DocumentList.tsx:85 | the result is an occurrence of the pattern, and there is none before it; no result means no occurrence at all |
| `JsText.TakeLine` | src/components/DocumentList.tsx:86 | `(.*)` takes the longest prefix without a line terminator and stops only at one |
| `JsText.IntToDecimal` | src/components/DocumentEditor.tsx:87-88 | `${imageId}`: the text starts with a minus sign exactly for a negative id, it reads back as that id, and its digits have no leading zero |
| `SignalR.ErrorMessage` | src/api/signalr.ts:14-17 | a refused send reports `SignalR not connected`; a transport failure reports the transport's message |
| `SignalR.HubConnection.constructor` | src/api/signalr.ts:3-12 | the connection starts disconnected, with the flag down and nothing sent |
| `SignalR.HubConnection.SendMessage` | src/api/signalr.ts:14-20 | outside `Connected` it fails with `NotConnected` and nothing reaches the transport; when connected it hands over the target and the arguments unchanged and in order, and resolves to `undefined` |
| `SignalR.HubConnection.StartConnection` | src/api/signalr.ts:22-26 | a handshake begins exactly when no attempt is pending and the state is `Disconnected`; it raises the flag and counts one `start()`; otherwise nothing changes |
| `SignalR.HubConnection.StartSettled` | src/api/signalr.ts:25-32 | whether `start()` succeeded or failed, the flag comes down, and the state is `Connected` or `Disconnected`; no error escapes |
| `SignalR.HubConnection.StopConnection` | src/api/signalr.ts:35-40 | `stop()` is called and the state becomes `Disconnected` only from `Connected`; in every other state nothing changes |
| `SignalR.HubConnection.TransportClosed` | src/api/signalr.ts:43 | a dropped live connection ends `Disconnected`, keeping the flag invariant |
| `SignalR.OverlappingStartsHandshakeOnce` | src/api/signalr.ts:23-24 | of two overlapping `startConnection` calls, the second never begins a handshake: at most one `start()` |
| `SignalR.FailedStartIsRetryable` | src/api/signalr.ts:28-32 | after a failed `start()`, the next `startConnection` begins a new handshake |
| `SignalR.HubConnection.InvokeMessage` | src/components/DocumentEditor.tsx:85-87 | the call the upload needs: the same guard as `sendMessage`, but it resolves to the server's reply |
| `BlockStore.FindIndex` | src/components/DocumentEditor.tsx:38 | `findIndex`: the first block carrying the id, or none when no block does |
| `BlockStore.InsertAt` | src/components/DocumentEditor.tsx:40 | the spread-and-slice insertion: one element longer, with the new block at the position; removing it gives back the original |
| `BlockStore.ReceiveBlock` | src/components/DocumentEditor.tsx:34-45 | a received block always makes the list exactly one longer |
| `BlockStore.ReceiveAfterActive` | src/components/DocumentEditor.tsx:36-41 | with the focused id present, the block lands at index+1 of its first occurrence; the blocks before and after keep their order; removing the new block restores the list |
| `BlockStore.ReceiveAppendsWithoutActive` | src/components/DocumentEditor.tsx:42-43 | with no focused id, or one not in the list, the block is appended last |
| `BlockStore.ReceiveCountsId` | src/components/DocumentEditor.tsx:34-45 | receiving adds exactly one more block with that id, whether or not one was there |
| `BlockStore.ReceiveDuplicateId` | src/components/DocumentEditor.tsx:34-45 | delivering a block whose id is present leaves at least two blocks with that id: no de-duplication |
| `BlockStore.InsertAtPresentDuplicates` | src/components/DocumentEditor.tsx:40 | inserting a block whose id is already present always creates a duplicate id |
| `BlockStore.InsertAtAbsentKeepsUnique` | src/components/DocumentEditor.tsx:40 | inserting a block with a new id keeps unique ids unique |
| `BlockStore.InsertAtUniqueIff` | src/components/DocumentEditor.tsx:40 | inserting into a list with unique ids keeps them unique exactly when the new id is absent |
| `BlockStore.ReceiveKeepsUniqueIff` | src/components/DocumentEditor.tsx:34-45 | a received block keeps ids unique exactly when its id was not yet present |
| `BlockStore.MapWhere` | src/components/DocumentEditor.tsx:59 | the `map` updater: same length; a block with the id becomes `f` of itself and every other block stays |
| `BlockStore.BlockEdited` | src/components/DocumentEditor.tsx:48-50 | every block with the incoming id is replaced by the whole incoming block; all others, the length and the order stay |
| `BlockStore.BlockEditedKeepsIds` | src/components/DocumentEditor.tsx:49 | a remote edit keeps the ids and their order |
| `BlockStore.BlockEditedUnknownIsNoOp` | src/components/DocumentEditor.tsx:49 | an edit for an unknown id leaves the list identical and does not insert the block |
| `BlockStore.LocalEdit` | src/components/DocumentEditor.tsx:58-59 | only `text` of the blocks with that id changes, to the new text; every other field and every other block stays |
| `BlockStore.LocalEditKeepsIds` | src/components/DocumentEditor.tsx:59 | a local edit keeps the ids and their order |
| `BlockStore.LocalEditUnknownIsNoOp` | src/components/DocumentEditor.tsx:59 | a local edit for an unknown id changes nothing |
| `BlockStore.TextOf` | src/components/DocumentEditor.tsx:92 | `find`: an absent block reads as `""`; a present one reads as the text of the first block with that id |
| `EditCoalescer.PendingAfter` | src/components/DocumentEditor.tsx:19-21 | a call replaces whatever was pending with its own arguments; the quiet period clears what was pending |
| `EditCoalescer.FiredBy` | src/components/DocumentEditor.tsx:19-21 | a call sends nothing; the quiet period sends exactly the pending arguments, if any, once |
| `EditCoalescer.Replay` | src/components/DocumentEditor.tsx:19-21 | after a run of events, the last event alone decides what is pending: the last call's arguments, or nothing after the quiet period |
| `EditCoalescer.Emitted` | src/components/DocumentEditor.tsx:19-21 | a run of events never sends more edits than it has events |
| `EditCoalescer.EmittedSnoc` | src/components/DocumentEditor.tsx:19-21 | one more event leaves the earlier sends alone and adds exactly what that event fires |
| `EditCoalescer.BurstKeepsLast` | src/components/DocumentEditor.tsx:19-21 | during a burst of calls nothing is sent, and the last call's arguments are pending |
| `EditCoalescer.BurstSendsLast` | src/components/DocumentEditor.tsx:19-21 | a burst of calls followed by the quiet period gives exactly one `EditBlock`, with the last call's arguments, whatever ids the calls named |
| `EditCoalescer.OtherBlockSupersedes` | src/components/DocumentEditor.tsx:19-21 | an edit to one block followed within the quiet period by an edit to another block is never sent |
| `EditCoalescer.EmittedComeFromCalls` | src/components/DocumentEditor.tsx:19-21 | every send carries the arguments of a call that was made (or was already pending) |
| `EditCoalescer.EmittedBounded` | src/components/DocumentEditor.tsx:19-21 | there are never more sends than quiet periods, nor more than calls plus the initially pending one |
| `DocumentEditor.CanEdit` | src/components/DocumentEditor.tsx:17 | editing is allowed exactly for a present role other than `Viewer`, that is `Creator` or `Editor`; no role means no editing |
| `DocumentEditor.RoleOf` | src/components/DocumentEditor.tsx:31 | `find`: no role exactly when none of the user's documents has this id; otherwise the role of the first entry with this id |
| `DocumentEditor.ImageMarker` | src/components/DocumentEditor.tsx:88 | the marker is `[image:`, then `${imageId}` (the id's canonical numeral: its sign, no leading zero, and it reads back as the id), then `]` |
| `DocumentEditor.ImageMarkerRoundTrip` | src/components/DocumentEditor.tsx:88 | the marker `[image:<id>]` reads back as its id |
| `DocumentEditor.TextWithImage` | src/components/DocumentEditor.tsx:92-93 | the saved text is the block's current text (or `""`), then a line break, then exactly the image's marker, which reads back as the image id |
| `DocumentEditor.SaveAfterUpload` | src/components/DocumentEditor.tsx:87-95 | a save happens exactly when the reply carries an image id; it then targets the pasted block with the marked text |
| `DocumentEditor.PasteThroughSendMessageNeverSaves` | src/components/DocumentEditor.tsx:85-87 | the reply `sendMessage` gives (`undefined`) never leads to a save |
| `DocumentEditor.EditorSession.constructor` | src/components/DocumentEditor.tsx:13-15 | a new session has no blocks, no role, no focus and nothing pending |
| `DocumentEditor.EditorSession.LoadBlocks` | src/components/DocumentEditor.tsx:27-28 | the fetched blocks replace the list in their given order |
| `DocumentEditor.EditorSession.LoadRole` | src/components/DocumentEditor.tsx:30-31 | the role becomes the one listed for this document, or none |
| `DocumentEditor.EditorSession.Focus` | src/components/DocumentEditor.tsx:124 | focusing a block makes it the active block |
| `DocumentEditor.EditorSession.OnReceiveBlock` | src/components/DocumentEditor.tsx:34-45 | the list becomes `ReceiveBlock` of the old list under the current focus |
| `DocumentEditor.EditorSession.OnBlockEdited` | src/components/DocumentEditor.tsx:48-50 | the list becomes `BlockEdited` of the old list |
| `DocumentEditor.EditorSession.Save` | src/components/DocumentEditor.tsx:19-21 | the call's arguments replace whatever was pending; the trace invariant is kept |
| `DocumentEditor.EditorSession.HandleBlockChange` | src/components/DocumentEditor.tsx:58-61 | the list gets the local edit at once, and the same `(id, text)` becomes pending |
| `DocumentEditor.EditorSession.QuietPeriodElapsed` | src/components/DocumentEditor.tsx:19-21 | the pending arguments, if any, go to the hub as one `EditBlock`; nothing is pending afterwards; a successful send resolves to `undefined`; a refusal is not retried; the sends so far equal the trace semantics |
| `DocumentEditor.EditorSession.HandleImagePaste` | src/components/DocumentEditor.tsx:63-97 | with the upload's reply returned, the block's text plus the marker is saved through the debouncer; any failure saves nothing and sends nothing over the hub |
| `DocumentEditor.EditorSession.HandleAddBlock` | src/components/DocumentEditor.tsx:100-103 | asks the hub for an empty block in this document and resolves to `undefined`, or fails without sending |
| `DocumentEditor.ThreeQuickEditsSendOnce` | src/components/DocumentEditor.tsx:58-61 | three quick edits to block 7 ("a", "ab", "abc") give exactly one `EditBlock{7, "abc"}` |
| `DocumentEditor.ReceiveThenRemoteEdit` | src/components/DocumentEditor.tsx:34-59 | on an empty document, a local edit of an unknown id does nothing; receive then remote edit leaves exactly the edited block |
| `DocumentList.DocumentCreated` | src/components/DocumentList.tsx:22-24 | exactly one entry `{document, Creator}` is appended and the earlier entries are untouched |
| `DocumentList.DocumentDeleted` | src/components/DocumentList.tsx:26-28 | an entry survives exactly when it was there and carries another id |
| `DocumentList.DocumentDeletedAppend` | src/components/DocumentList.tsx:27 | the filter acts on each part of a list separately, so survivors keep their order |
| `DocumentList.DocumentDeletedUnknownIsNoOp` | src/components/DocumentList.tsx:27 | deleting an id no entry carries changes nothing |
| `DocumentList.DeleteUndoesCreate` | src/components/DocumentList.tsx:22-28 | deleting a just-created document restores the list |
| `DocumentList.InitialRowsAsWritten` | src/components/DocumentList.tsx:17 | as written, the form starts with one empty row whose role is neither a select option nor a role name |
| `DocumentList.InitialRows` | src/components/DocumentList.tsx:81 | the form starts with one empty row whose role the select offers |
| `DocumentList.UpdateRow` | src/components/DocumentList.tsx:47-56 | only the named field of the row at the index changes; the length and every other row stay |
| `DocumentList.AddRow` | src/components/DocumentList.tsx:60-62 | one `{username: '', role: 'Viewer'}` row is appended after the unchanged rows |
| `DocumentList.RemoveRow` | src/components/DocumentList.tsx:64-66 | exactly row i goes when i is in range, and the later rows move up; otherwise nothing changes |
| `DocumentList.FormOperationsKeepSelectableRoles` | src/components/DocumentList.tsx:47-66 | add, remove and change keep every row's role among the select's options |
| `DocumentList.TrimRows` | src/components/DocumentList.tsx:70 | each row keeps its role and gets its name trimmed |
| `DocumentList.KeptRowsExact` | src/components/DocumentList.tsx:71 | the filter keeps, in increasing order, exactly the rows with a non-empty name |
| `DocumentList.NamedRows` | src/components/DocumentList.tsx:71 | the filter never yields more rows than it is given |
| `DocumentList.NamedRowsAreKept` | src/components/DocumentList.tsx:71 | the filtered rows are the rows at the kept positions, in order |
| `DocumentList.BuildCreateRequest` | src/components/DocumentList.tsx:69-78 | the request carries the title, and `Usernames` and `Roles` have equal length |
| `DocumentList.CreateRequestFromRows` | src/components/DocumentList.tsx:69-78 | position k of `Usernames` and of `Roles` comes from the same row, the k-th row with a non-blank name; the name is trimmed and non-empty; no such row is missed |
| `DocumentList.RequestNamesAreTrimmed` | src/components/DocumentList.tsx:69-71 | every user name sent is non-empty and has no white space at either end |
| `DocumentList.RequestRolesAreRoleNames` | src/components/DocumentList.tsx:77 | rows whose roles come from the select send only role names |
| `DocumentList.SingleRowRequest` | src/components/DocumentList.tsx:69-78 | a form of one row with a non-blank name sends exactly that name, trimmed, with the row's role |
| `DocumentList.InitialRowSendsUserRole` | src/components/DocumentList.tsx:17 | as written, a user typed into the first row without touching its select is sent with role `User`, which is no role |
| `DocumentList.InitialRowSendsViewerRole` | src/components/DocumentList.tsx:81 | with the initial row as intended, that user is sent as `Viewer` |
| `DocumentList.NotFoundUsers` | src/components/DocumentList.tsx:85-87 | a report exists exactly when the message includes the prefix; it holds no line terminator and does not start with white space |
| `DocumentList.NotFoundUsersAfterFirstPrefix` | src/components/DocumentList.tsx:85-87 | for any message that includes the prefix, the report starts right after the white space that follows the prefix's first occurrence, and it runs up to a line terminator or the end of the message |
| `DocumentList.NotFoundUsersReadsList` | src/components/DocumentList.tsx:86-87 | the prefix, white space, then a one-line list reports exactly that list |
| `DocumentList.CreateFailureAlert` | src/components/DocumentList.tsx:85-91 | the alert names the not-found users when the message includes the prefix, and is the generic message otherwise |
| `DocumentList.DocumentListView.constructor` | src/components/DocumentList.tsx:13-17 | the list starts empty and loading, with the form hidden, an empty title and the as-written initial row `{'', 'User'}` |
| `DocumentList.DocumentListView.DocumentsFetched` | src/components/DocumentList.tsx:36-45 | a fetched list replaces the list, a failure keeps it, and loading ends either way |
| `DocumentList.DocumentListView.OnDocumentCreated` | src/components/DocumentList.tsx:22-24 | the list becomes `DocumentCreated` of the old list |
| `DocumentList.DocumentListView.OnDocumentDeleted` | src/components/DocumentList.tsx:26-28 | the list becomes `DocumentDeleted` of the old list |
| `DocumentList.DocumentListView.ToggleForm` | src/components/DocumentList.tsx:115 | the form's visibility flips |
| `DocumentList.DocumentListView.SetTitle` | src/components/DocumentList.tsx:144 | the title becomes the typed value |
| `DocumentList.DocumentListView.HandleUserChange` | src/components/DocumentList.tsx:47-57 | for any row index in range, the rows become `UpdateRow` of the old rows, whatever roles they hold |
| `DocumentList.DocumentListView.AddUserInput` | src/components/DocumentList.tsx:60-62 | the rows become `AddRow` of the old rows |
| `DocumentList.DocumentListView.RemoveUserInput` | src/components/DocumentList.tsx:64-66 | the rows become `RemoveRow` of the old rows |
| `DocumentList.DocumentListView.HandleCreateDocument` | src/components/DocumentList.tsx:68-93 | on success the built request is sent and the form resets to a hidden form, an empty title and one empty `Viewer` row; on failure nothing is sent, the form stays and one alert shows |
| `DocumentList.FreshFormSendsUserRole` | src/components/DocumentList.tsx:13-17 | on a freshly mounted form, a user typed into the first row and created at once goes to the hub with the role name `User` |
| `DocumentList.DocumentListView.HandleDeleteDocument` | src/components/DocumentList.tsx:96-107 | a cancelled confirm changes nothing; a successful send removes the id from the list; a failed send leaves the list and alerts |
| `Register.AllFilledIff` | src/components/LoginAndRegister/Register.tsx:21-40 | every field is filled exactly when each of the five is non-empty |
| `Register.Validate` | src/components/LoginAndRegister/Register.tsx:21-42 | the model is submitted (unchanged) exactly when no field is empty; otherwise the error is the message of an empty field |
| `Register.FirstEmpty` | src/components/LoginAndRegister/Register.tsx:21-40 | the first field in the list that is empty, with every earlier one filled |
| `Register.ValidateReportsFirstEmpty` | src/components/LoginAndRegister/Register.tsx:21-40 | the error is the message of the first empty field in the order email, username, password, name, surname |
| `Register.RequiredMessage` | src/components/LoginAndRegister/Register.tsx:20-38 | each field's error message identifies that field and no other |
| `Register.RequiredMessageInjective` | src/components/LoginAndRegister/Register.tsx:21-40 | each field has its own message |
| `Register.RejectionMessage` | src/components/LoginAndRegister/Register.tsx:43-46 | the server's error when it is present and non-empty, otherwise the fixed default; never empty |
| `Register.RegisterForm.constructor` | src/components/LoginAndRegister/Register.tsx:10-15 | all fields empty, no error, nothing submitted |
| `Register.RegisterForm.SetField` | src/components/LoginAndRegister/Register.tsx:63 | an input's change sets its own field and no other |
| `Register.RegisterForm.HandleSubmit` | src/components/LoginAndRegister/Register.tsx:17-47 | with an empty field, the first field's error is shown and `onRegister` is not called; otherwise `onRegister` is called once with all five values, and the error is cleared or set from the rejection |

## Findings

| source | as written | input that shows it | evidently intended | confidence | as-written member | corrected member |
|---|---|---|---|---|---|---|
| src/components/DocumentEditor.tsx:85-93 | `sendMessage` (src/api/signalr.ts:14-20) has no return value, so `response` is `undefined`. Then `response.id` throws a TypeError, the `catch` logs it, and the marker is never inserted or saved | a paste on a connected hub whose `SendBlockImage` send succeeds | the upload call returns the server's image descriptor `{id, url}`, and the block text plus `[image:<id>]` is saved | high; not executed | `DocumentEditor.PasteThroughSendMessageNeverSaves` | `DocumentEditor.EditorSession.HandleImagePaste` |
| src/components/DocumentList.tsx:17 | the first invite row starts with role `'User'`, which is not a `DocumentRole` and not an option of the row's select (the select shows `Viewer`) | type a user name in the first row, leave its select alone, press Create: `Roles` is `["User"]` | the same `{username: '', role: 'Viewer'}` row as `addUserInput` and the post-create reset | medium; not executed | `DocumentList.InitialRowSendsUserRole` | `DocumentList.InitialRows` |

The component model `DocumentList.DocumentListView` mounts with the row as
written, so the second finding shows on the class itself
(`DocumentList.FreshFormSendsUserRole`). `DocumentList.InitialRows` is the
corrected row, and the request lemmas state what it would send.

The same root cause as the first finding makes another branch unreachable.
`hubConnection.send` does not wait for the server, so a server-side refusal of
`CreateDocument` never reaches `handleCreateDocument`. The "users not found"
branch can then only match a transport error's message. The model keeps
`sendMessage` as written and passes the transport's message in.

## Left out

- REST calls (`getBlocksByDocument`, `getMyDocuments`) and their headers are
  not modelled. Their results enter only as inputs to `LoadBlocks`,
  `LoadRole` and `DocumentsFetched`.
- Subscribing and unsubscribing handlers (`hubConnection.on` / `off`) is not
  modelled. Each handler is a method that the environment calls per event.
- Transport internals (WebSocket, negotiation, the access-token factory) and
  console logging are not modelled. The outcome of `start()` and of a
  transport send are parameters.
- The library's transient `Disconnecting` state is not modelled: `stop()` is
  taken as one step.
- `Reconnecting` is kept in the state type but is never reached, because the
  builder configures no automatic reconnect. A dropped connection goes
  straight to `Disconnected` (`TransportClosed`).
- Async interleaving: every handler runs to completion as one step, except
  `startConnection`, which is split at its `await`. In `HandleImagePaste` the
  block text is read from the list as it was when the paste began. Changes
  made while the upload is in flight are not modelled.
- Reading the pasted file's bytes and the editor's `insertAtCursor` call are
  not modelled (browser I/O and the rich-text editor). The file arrives as a
  ready `FileUpload`.
- `HandleUserChange`: the copied array shares its row objects with the
  previous state, so the old state's row is overwritten as well. The model
  works on values and does not capture this aliasing.
- Time: the 1000 ms debounce is modelled as an explicit quiet-period event.
  Cancelling a pending call when the editor unmounts is not modelled.
- Rejections the source leaves unhandled (the debounced `EditBlock` send and
  `handleAddBlock`) are returned as results. The model does not show them
  as uncaught.
- A non-string `err.response.data.error` is not modelled. The model takes it
  as an optional string.
- `LocalEdit`, `HandleBlockChange` and `TextWithImage`: the rich-text editor
  hands `handleBlockChange` its JSON document (`editor.getJSON()` in
  src/components/RichTextBlockEditor.tsx), not a string. The model treats the
  editor content as an opaque string. It does not capture that a block's
  `text` and the `EditBlock` payload then hold that object, nor that the
  corrected paste flow would turn it into `[object Object]` before adding the
  marker.
- `${id}` is modelled for integers only. JavaScript's exponent notation for
  magnitudes of 10^21 and above is not.
- Strings are sequences of Unicode scalar values, not UTF-16 code units.
- The `ReceiveBlockImage` event has no handler in this client, so it is not
  modelled.
- The `canEdit` gate applies only to rendering (`editable`, the add button).
  `HandleBlockChange` and `HandleAddBlock` do not check the role, as in the
  source.
- Route handling, token storage, the toolbar and editor wrappers, and the
  pass-through login and registration forms are outside this model.
