# ChatterBox core, modelled in Dafny

ChatterBox is a one-to-one chat service. It has three parts:

- an Express/Mongoose backend with account, user-list and history endpoints;
- a Socket.IO gateway that keeps a process-local presence map and relays messages, typing and read receipts;
- a React chat page.

This project models the core of all three and proves properties about it.

- **Message record** (`MessageModel`). The Message schema has required sender and receiver and required trimmed content. `read` defaults to false, and the schema adds `createdAt`/`updatedAt` timestamps. `Create` validates a draft the way the `required` and `trim` options do: content that is only white space counts as missing.
- **Message collection** (`Store.MessageStore`). This is a class whose `messages` sequence the operations reassign:
  - `save`;
  - `findByIdAndUpdate(id, {read: true}, {new: true})`;
  - `updateMany({sender, receiver, read: false}, {read: true})`.

  Its invariant is that identifiers increase in insertion order. Every operation is proved to `Evolve` the collection: documents are only appended, and `read` never goes back to false.
- **Conversation queries** (`ChatController`).
  - `getUsers` is the whole aggregation pipeline as a function. For each peer it gives the newest message and the unread count, sorted by last-message time and then by username.
  - `getMessages` is a method on the store. It returns the two-way history newest first, as read *before* the bulk update, and then marks the peer's messages to the caller read.
- **Gateway** (`Gateway.Gateway`). This is a class over the `ONLINE_USERS` map and an outbox of emitted events. It models the handshake, `connection`, `sendMessage`, `messageRead`, `typing` and `disconnect`, each as one atomic step. It also models the global HTTP error handler's status clamp. The invariant `PresenceAdvertised` says the last `onlineUsers` broadcast always equals the map's current key set.
- **Credentials** (`Middleware`, `Auth`).
  - `Middleware` covers the `Authorization: Bearer <token>` check, with JavaScript's `split(' ')` semantics, and the socket token priority auth → query → headers.
  - `Auth` covers signup, with uniqueness of username and email, and login, which gives one answer for an unknown user and for a wrong password. JWT verification, JWT signing and password comparison are opaque function parameters.
- **Chat page** (`ChatClient`). The `setState` updaters and handler guards of `Chat.tsx`, as pure list transforms.
- **Scenarios** (`Scenarios`). End-to-end runs across the gateway, store, controller and page.

Clocks, database failures and "has a socket" are parameters: `now: nat`, a `fault` flag or error message per database call, and `hasSocket: bool`. A failing call fails its operation at that call, so whatever the operation did before it stays done and nothing after it happens; every operation modelled here writes at most once, at its last database call, so a failure leaves the stored data unchanged. Mongo ObjectIds are natural numbers, and the store hands them out in increasing order.

The `messageRead` handler (backend/index.js:96-100) notifies the socket of `to` that `by: from` read the message. The chat page (Chat.tsx:150-151) sends `from` = the reader and `to` = the active peer, who is the original sender of an incoming message, so the notice reaches the original sender. `Gateway.Gateway.MessageRead` models the handler.

Messages reach the chat page in two shapes. A fetched history is mapped to rows with an `id` (chatController.js:232-239). A message that arrives over the socket, as a push or in a send ack, is the saved Mongoose document serialized as it is; the Message schema enables no virtuals in its JSON, so it carries `_id` but no `id`. The page reads `msg.id` for read receipts (Chat.tsx:149) and compares `m.id` on read notices (Chat.tsx:167). `ChatClient.PageMessage` therefore has an optional id. A receipt for a socket-delivered message names no message (`ChatClient.PushedMessageReceiptHasNoId`, `Scenarios.PushedReceiptNamesNoMessage`); receipts work for a fetched history (`Scenarios.FetchedReceiptRoundTrip`), but the sender's own socket-delivered copy is not ticked by the notice.

## Model

| member | source | states |
|---|---|---|
| MessageModel.TrimStart | backend/models/Message.js:14-18 | The result is the suffix left after a wholly white-space prefix, and it does not start with white space. |
| MessageModel.TrimEnd | backend/models/Message.js:14-18 | The result is the prefix before a wholly white-space suffix, and it does not end with white space. |
| MessageModel.Trim | backend/models/Message.js:14-18 | The stored content has no white space at either end and is never longer than the input. |
| MessageModel.TrimIsMiddle | backend/models/Message.js:14-18 | The stored content is a contiguous middle of the input: what is cut before it and after it is all white space. |
| MessageModel.TrimmedIsKept | backend/models/Message.js:14-18 | Content that is already trimmed is stored unchanged. |
| MessageModel.TrimIdempotent | backend/models/Message.js:14-18 | Trimming twice equals trimming once. |
| MessageModel.TrimEmptyIffBlank | backend/models/Message.js:14-18 | Trimming leaves nothing exactly when the content is all white space, so `required` rejects blank content. |
| MessageModel.ContentBlankIff | backend/models/Message.js:14-18 | The same fact for a draft's optional content. |
| MessageModel.Create | backend/models/Message.js:3-25 | Validation succeeds iff sender, receiver and non-blank content are present. A failure reports the non-empty set of missing paths. On success: the given id and parties; the trimmed, non-empty content; `read` false unless the draft sets it true; `createdAt = updatedAt = now`. |
| Store.UnreadFrom | backend/controllers/chatController.js:56-72 | The unread count never exceeds the number of documents. |
| Store.UnreadFromZeroIff | backend/controllers/chatController.js:56-72 | The count is zero exactly when no document is an unread one from `from` to `to`. |
| Store.MarkedRead | backend/controllers/chatController.js:220-227 | The bulk update keeps length and ids, and a document is read afterwards exactly when it was read before or was an unread message from `from` to `to`. |
| Store.MarkedById | backend/index.js:90 | Marking by id keeps the length. With no document holding the id nothing changes; otherwise only documents holding the id may change, each only by becoming read at `now`, and the first of them is read. |
| Store.IndexOf | backend/index.js:90 | Finds the first position holding the id, and none exactly when no document has it. |
| Store.MarkedReadLeavesNoUnread | backend/controllers/chatController.js:220-227 | After the bulk update, no unread message from `from` to `to` remains. |
| Store.MarkedReadEffect | backend/controllers/chatController.js:220-227 | The bulk update flips exactly the matching documents (read set, `updatedAt` set) and leaves every other document as it was. |
| Store.MarkedReadIdempotent | backend/controllers/chatController.js:220-227 | Repeating the bulk update, at any later time, changes nothing. |
| Store.MarkedReadEvolves | backend/controllers/chatController.js:220-227 | The bulk update changes no identity, party, content or creation time, and never unsets `read`. |
| Store.MarkedReadKeepsIds | backend/controllers/chatController.js:220-227 | The bulk update keeps identifiers increasing. |
| Store.MarkedByIdEvolves | backend/index.js:90 | Marking one document read by id is an allowed evolution. |
| Store.AppendNext | backend/index.js:71 | Appending a saved document with the next id keeps ids increasing and is an allowed evolution. |
| Store.UnreadFromPrefix | backend/controllers/chatController.js:56-72 | Counting one more document adds exactly that document's contribution. |
| Store.SaveOutcome | backend/index.js:71 | A save succeeds iff validation passes and the database does not fail, and then yields the validated document. A validation failure is reported before a database failure. |
| Store.MarkEach | backend/controllers/chatController.js:220-227 | The document-by-document pass equals the bulk update, and its count equals the number of unread messages from `from` to `to`. |
| Store.MessageStore.constructor | backend/models/Message.js:28 | A new collection is empty and satisfies the id invariant. |
| Store.MessageStore.Save | backend/index.js:71 | A save appends exactly the validated document, or on any failure leaves the collection untouched. It keeps the invariant and only evolves the collection. |
| Store.MessageStore.FindByIdAndMarkRead | backend/index.js:90 | Marks only the document with that id read and returns it, or returns nothing exactly when the id is unknown. It keeps the invariant and only evolves the collection. |
| Store.MessageStore.UpdateManyRead | backend/controllers/chatController.js:220-227 | The collection becomes the bulk-updated one and the modified count is the number of unread messages. Afterwards none is unread, the invariant holds and the collection only evolved. |
| Sorting.Insert | backend/controllers/chatController.js:209 | Insertion adds exactly one element and keeps all others (multiset). |
| Sorting.InsertMembers | backend/controllers/chatController.js:209 | After insertion, the elements are the inserted one plus the old ones. |
| Sorting.InsertSorted | backend/controllers/chatController.js:209 | Inserting into a sorted sequence by a total preorder keeps it sorted. |
| Sorting.SortBy | backend/controllers/chatController.js:209 | The sorted sequence is a permutation of the input. |
| Sorting.SortBySorted | backend/controllers/chatController.js:209 | For a total preorder, the result is sorted. |
| Sorting.SortByMembers | backend/controllers/chatController.js:209 | Sorting keeps exactly the input's elements. |
| Sorting.LexLe | backend/controllers/chatController.js:88 | The binary username order contains Dafny's prefix order, and a string is never ordered before one whose first character is smaller. |
| Sorting.LexTotal | backend/controllers/chatController.js:88 | The binary username order compares any two strings. |
| Sorting.LexTransitive | backend/controllers/chatController.js:88 | The binary username order is transitive. |
| Sorting.LexAntisymmetric | backend/controllers/chatController.js:88 | Two usernames each sorting no later than the other are equal. |
| ChatController.Conversation | backend/controllers/chatController.js:203-208 | The selected documents are exactly those with `{sender, receiver}` equal to `{me, peer}` in either direction. |
| ChatController.History | backend/controllers/chatController.js:203-209 | The history has the conversation's size and holds the same messages (multiset). |
| ChatController.NewerOrSameIsTotalPreorder | backend/controllers/chatController.js:209 | `createdAt` descending is a total preorder. |
| ChatController.HistoryIsConversationNewestFirst | backend/controllers/chatController.js:203-209 | The history is a permutation of the conversation, holds exactly the messages between the two users, and is ordered newest first. |
| ChatController.NewestMessageHeadsHistory | backend/controllers/chatController.js:203-209 | A message newer than everything stored heads its conversation's history. |
| ChatController.UnreadFromConcat | backend/controllers/chatController.js:56-72 | Unread counts add up over concatenation. |
| ChatController.UnreadFromCons | backend/controllers/chatController.js:56-72 | The count over `[x] + s` is x's contribution plus the count over `s`. |
| ChatController.UnreadFromHead | backend/controllers/chatController.js:56-72 | The count over a non-empty sequence is its head's contribution plus the count over the rest. |
| ChatController.UnreadFromInsert | backend/controllers/chatController.js:56-72 | Inserting a message adds exactly its own contribution to the count. |
| ChatController.UnreadFromSortBy | backend/controllers/chatController.js:44 | Sorting the gathered messages does not change the unread count. |
| ChatController.UnreadFromConversation | backend/controllers/chatController.js:24-43 | Restricting to the conversation loses no unread message from the peer to the caller. |
| ChatController.SummaryOf | backend/controllers/chatController.js:19-83 | A peer's row keeps that peer's id, username and email. |
| ChatController.SummaryOfIsCorrect | backend/controllers/chatController.js:50-72 | `lastMessage` is absent iff the two users have no messages. Otherwise it is one of theirs and no message between them is newer. `unreadCount` equals the store-wide number of unread messages from the peer to the caller and never exceeds the conversation's size. |
| ChatController.SummaryBefore | backend/controllers/chatController.js:85-90 | A peer with messages sorts before a peer without, and a newer last message sorts first. With equal last-message times, or with no messages on either side, the username order decides. |
| ChatController.SummaryBeforeIsTotalPreorder | backend/controllers/chatController.js:85-90 | The two-key `$sort` (last message time descending, then username) is a total preorder. |
| ChatController.Candidates | backend/controllers/chatController.js:13-16 | The candidates are exactly the users other than the caller. |
| ChatController.Summaries | backend/controllers/chatController.js:11-91 | There is one row per candidate user. |
| ChatController.SummariesAreOtherUsers | backend/controllers/chatController.js:11-91 | There is one row per other user. The caller never appears, every other user does, and every row is the summary of some other user. |
| ChatController.SummariesSorted | backend/controllers/chatController.js:85-90 | The rows are in `$sort` order, and every peer without messages comes after every peer with messages. |
| ChatController.GetUsers | backend/controllers/chatController.js:93-108 | A database failure, and only that, yields status 400. Otherwise the rows are the pipeline's rows, with 404 exactly when no user other than the caller exists and 200 otherwise. |
| ChatController.Rows | backend/controllers/chatController.js:232-239 | One row per message, in order, with `id`, `sender`, `receiver`, `content`, `read` and `createdAt` of that message. |
| ChatController.GetMessages | backend/controllers/chatController.js:197-247 | A failure yields 400 and leaves the store unchanged. Otherwise the response is the rows of the pre-update history newest first, and the store becomes the bulk-updated one. Every message from the peer to the caller is then read, every other document is unchanged, and an empty history changes nothing. |
| ChatController.EmptyHistoryNothingToMark | backend/controllers/chatController.js:212-217 | With no history between the two users, the skipped bulk update would have changed nothing. |
| Middleware.Split | backend/utils/middleware.js:13 | `split` yields at least one piece, no piece contains the separator, and joining the pieces gives back the header. |
| Middleware.SplitJoin | backend/utils/middleware.js:13 | Splitting undoes joining separator-free pieces. |
| Middleware.SplitNoSeparator | backend/utils/middleware.js:13 | A string without the separator splits into itself alone. |
| Middleware.SplitAfterPiece | backend/utils/middleware.js:13 | Splitting `piece + sep + rest` gives `piece` followed by the pieces of `rest`. |
| Middleware.VerifyToken | backend/utils/middleware.js:4-36 | Every refusal is 401, and a falsy header is refused as "No token provided". An accepted request had the header exactly `"Bearer " + token`, and its claims are what the verifier returned for that token. |
| Middleware.BearerHeaderVerifiesToken | backend/utils/middleware.js:13-29 | For `Bearer <token>` with a space-free token, the verifier's answer alone decides: its claims, or "Failed to authenticate token". |
| Middleware.MalformedHeaderRefused | backend/utils/middleware.js:13-18 | Any other scheme, or a header that does not split into exactly two pieces, is refused as "Invalid token format". |
| Middleware.SocketToken | backend/utils/middleware.js:41-44 | The token is the first truthy of auth, query and headers. It is truthy iff one of them is. |
| Middleware.VerifySocket | backend/utils/middleware.js:39-56 | Without any token source the handshake is refused as "No token provided". An accepted handshake carries the verifier's claims for the chosen token. With a token, the handshake is accepted exactly when the verifier accepts that token, and refused otherwise as "Failed to authenticate token". |
| Gateway.QuietEventsKeepBroadcast | backend/index.js:66 | Emitting events other than `onlineUsers` leaves the last presence broadcast unchanged. |
| Gateway.SendEmits | backend/index.js:69-85 | The send emits no broadcast. Its ack comes first, exactly when a callback was given, and carries the saved message or the error. A push to the recipient's socket follows only for a saved message whose recipient is online. |
| Gateway.SendDraft | backend/index.js:71 | The draft has the connection's user as sender and the given receiver and text, leaves `read` unset, and validates, for any id and time, to an unread message. |
| Gateway.Gateway.constructor | backend/index.js:58 | The presence map and the outbox start empty; the presence invariant holds. |
| Gateway.Gateway.Deliver | backend/index.js:73-115 | Emitting non-presence events keeps the presence invariant and the map. |
| Gateway.Gateway.Connect | backend/index.js:60-66 | The user's entry now holds the newest socket (last connect wins). The key set is broadcast, and the last broadcast equals the current key set. |
| Gateway.Gateway.Handshake | backend/index.js:56-66 | A refused handshake changes nothing. An accepted one connects the user named by the token's `sub`. |
| Gateway.Gateway.SendMessage | backend/index.js:69-85 | At most one message is stored: exactly the validated one, or none on failure. The emits are those of `SendEmits` for the outcome. Presence is unchanged and the store only evolves. |
| Gateway.Gateway.MessageRead | backend/index.js:88-108 | Only that message is marked read. The caller gets the ack `read: true` and, if `to` is online, `to`'s socket learns that `from` read it at `now`. A failing update or an unknown id yields only an error event and leaves the store unchanged. |
| Gateway.Gateway.Typing | backend/index.js:111-117 | The typing state is relayed to the recipient's socket only if the recipient is online. Nothing is stored. |
| Gateway.Gateway.Disconnect | backend/index.js:119-123 | The user's entry is removed whichever socket it holds. The remaining key set is broadcast, and the last broadcast equals it. |
| Gateway.ErrorStatus | backend/index.js:48-50 | The status is always in 400-599. A status already in that range passes through, and anything else becomes 500. |
| Gateway.HandleError | backend/index.js:48-53 | The response status is the clamped `err.status` (`ErrorStatus`), always a valid error status. The body message is the error's own message, or 'Internal Server Error' when it is empty. |
| Gateway.DbErrorIsHandlerAnswer | backend/index.js:48-53 | The handler's answer to an error without a status is the controllers' `DbError`. |
| Auth.FindExisting | backend/controllers/authController.js:16 | Finds a user holding the username or the email, and none exactly when no user holds either. |
| Auth.FindByUsername | backend/controllers/authController.js:48 | Finds a user with that username, and none exactly when no user has it. |
| Auth.DbError | backend/index.js:48-53 | A failing database call is answered 500 with its own message, or 'Internal Server Error' when it has none. |
| Auth.Login | backend/controllers/authController.js:38-72 | A missing field gives 400. A failing lookup or password comparison gives 500. An unknown username and a wrong password both give the same 401 "Invalid username or password". Login succeeds iff both fields are present, the lookup works, the user exists and the password matches; the token is then signed over that user's id and username. |
| Auth.WrongPasswordLooksLikeUnknownUser | backend/controllers/authController.js:48-60 | A wrong password for an existing user gets exactly the answer of a username nobody holds. |
| Auth.FindByUsernameAppended | backend/controllers/authController.js:48 | A newly appended account with a fresh username is found by it. |
| Auth.LoginAfterSignup | backend/controllers/authController.js:25-71 | An account just created with a fresh username can log in with its password and gets a token for its new id. |
| Auth.UserTable.constructor | backend/controllers/authController.js:2 | An empty user table satisfies the uniqueness invariant. |
| Auth.UserTable.Signup | backend/controllers/authController.js:5-35 | A missing field gives 400, a failing lookup 500, a taken username or email 409 and a failing save 500, each leaving the table unchanged. Success happens iff every field is present, neither database call fails and neither value is taken. It then appends exactly one user with a fresh id, keeps ids, usernames and emails unique, and answers 201 without the password. |
| ChatClient.UiUserOf | frontend/chatter-box/src/pages/Chat.tsx:58-64 | A UI entry keeps the summary's id, username and unread count, starts offline, and has a last message exactly when the summary does. |
| ChatClient.ToUiUsers | frontend/chatter-box/src/pages/Chat.tsx:58-64 | One UI entry per fetched summary, in order, all offline, keeping id, username, unread count and the last message's content. |
| ChatClient.SetOnline | frontend/chatter-box/src/pages/Chat.tsx:76-80 | Every entry is online exactly when its id is in the broadcast, and nothing else about it changes. |
| ChatClient.SetOnlineLatestWins | frontend/chatter-box/src/pages/Chat.tsx:76-80 | Only the latest broadcast matters. |
| ChatClient.OnlineFlagsMatchPresence | frontend/chatter-box/src/pages/Chat.tsx:58-80 | After loading the summaries and hearing the gateway's key set, the list shows every peer but the caller in summary order, online exactly when the gateway holds a socket for it. |
| ChatClient.FromRow | frontend/chatter-box/src/pages/Chat.tsx:94-95 | A fetched row keeps its id and fields on the page. |
| ChatClient.FromDocument | frontend/chatter-box/src/pages/Chat.tsx:103-105 | A socket-delivered document keeps its fields on the page but has no `id`. |
| ChatClient.Fetched | frontend/chatter-box/src/pages/Chat.tsx:94-95 | The page's list after selecting a user is the fetched rows, in order. |
| ChatClient.Appended | frontend/chatter-box/src/pages/Chat.tsx:103-105 | A received message is appended, without an id, after the existing list. |
| ChatClient.ApplySendAck | frontend/chatter-box/src/pages/Chat.tsx:132-137 | An ok ack appends its message, without an id, and an error ack leaves the list unchanged. |
| ChatClient.MarkReadById | frontend/chatter-box/src/pages/Chat.tsx:161-168 | Entries with that id become read and all others are unchanged; an absent id matches entries without an id. |
| ChatClient.MarkReadByIdIdempotent | frontend/chatter-box/src/pages/Chat.tsx:161-168 | A repeated receipt changes nothing more. |
| ChatClient.RequestFor | frontend/chatter-box/src/pages/Chat.tsx:147-153 | A listed message yields one request, carrying its id, exactly when it is addressed to the caller and unread, and none otherwise. |
| ChatClient.ReadRequests | frontend/chatter-box/src/pages/Chat.tsx:146-153 | Every unread message addressed to the caller gets a request `{messageId: its id, from: me, to: peer}`, and every request names such a message. |
| ChatClient.ReadRequestsAppend | frontend/chatter-box/src/pages/Chat.tsx:146-153 | Requests follow list order: one more message adds exactly its own request, at the end, or none. |
| ChatClient.ReadEmits | frontend/chatter-box/src/pages/Chat.tsx:143-155 | Nothing is emitted without a socket or an active peer. Otherwise the requests go to the active peer. |
| ChatClient.NoReceiptsWhenAllRead | frontend/chatter-box/src/pages/Chat.tsx:146-153 | Once every listed message is read, no receipt is emitted. |
| ChatClient.ReceiptsForFetchedHistoryGoToSender | frontend/chatter-box/src/pages/Chat.tsx:146-153 | For a fetched history, every receipt is addressed to the peer and carries the id of a message that the peer sent to the caller. |
| ChatClient.FetchedEntryOf | frontend/chatter-box/src/pages/Chat.tsx:94-95 | Every entry of a fetched page is one of the fetched messages, carrying its id, sender and receiver. |
| ChatClient.PushedMessageReceiptHasNoId | frontend/chatter-box/src/pages/Chat.tsx:103-105 | An unread message received over the socket yields a receipt with no message id. |
| ChatClient.TypingIndicator | frontend/chatter-box/src/pages/Chat.tsx:117-119 | Only the active peer's events change the indicator. `typing` shows "<username> is typing…" and its end clears the indicator. |
| ChatClient.HandleSend | frontend/chatter-box/src/pages/Chat.tsx:127-131 | A send request exists iff there is a socket and an active peer, and it goes to that peer with the typed text. |
| ChatClient.HandleTyping | frontend/chatter-box/src/pages/Chat.tsx:191-193 | A typing-start request exists iff there is a socket and an active peer, and it goes to that peer. |
| Scenarios.HiIsSaved | backend/models/Message.js:3-25 | A send of "hi" validates to an unread message with that text and both timestamps at `now`. |
| Scenarios.SingleMessageHistory | backend/controllers/chatController.js:203-209 | A store holding one message of a conversation shows exactly it. |
| Scenarios.SingleUnreadReceipt | frontend/chatter-box/src/pages/Chat.tsx:146-153 | A page with one unread incoming message emits one receipt for it. |
| Scenarios.FetchedSingleReceipt | frontend/chatter-box/src/pages/Chat.tsx:94-153 | A fetched history of one unread incoming message yields one receipt carrying its id. |
| Scenarios.AckCopyNotTicked | frontend/chatter-box/src/pages/Chat.tsx:132-168 | The sender's copy from the send ack has no id, so a read notice naming the message by id leaves it unchanged. |
| Scenarios.OfflineSendThenFetch | backend/index.js:69-85 | A send to an offline peer is acked to the sender and pushed nowhere. The peer's later fetch returns the message still unread, and the fetch marks it read in the store. |
| Scenarios.StaleDisconnect | backend/index.js:119-123 | A user's older socket disconnecting removes the entry although a newer socket is open, and the broadcast says nobody is online. |
| Scenarios.PresenceAcrossDisconnect | backend/index.js:60-66 | Two connects broadcast both ids, and one disconnect broadcasts the other alone. |
| Scenarios.TypingRelayed | backend/index.js:111-117 | A start and a stop of typing reach the online peer's socket in order, and nothing is stored. |
| Scenarios.PushedReceiptNamesNoMessage | frontend/chatter-box/src/pages/Chat.tsx:103-153 | A message pushed to an online receiver gives the receiver's page one receipt, addressed to the sender but naming no message, and the stored message stays unread. |
| Scenarios.FetchThenReceipt | backend/controllers/chatController.js:197-247 | After the receiver fetches a conversation holding one unread message, its page emits one receipt, to the sender, carrying that message's id. |
| Scenarios.FetchedReceiptRoundTrip | backend/index.js:88-108 | After the receiver fetches the conversation, its page emits one receipt carrying the message's id. The gateway marks that message read and notifies the sender's socket that the receiver read it. The sender's copy, appended from the send ack without an id, stays unticked. |

## Left out

- JSON serialisation, HTTP routing, the 404 route handler, server bootstrap and logging are not modelled; responses are datatypes.
- Concurrency is not modelled. Each socket handler and each controller runs as one atomic step; the interleavings across `await`s of the JavaScript event loop are not modelled.
- The `onlineUsers` payload is a set. The insertion order of the JavaScript `Map` keys is not modelled.
- Mongo's `$sort` does not specify the order of equal keys. The model sorts stably, so equal keys keep store order.
- A database failure part-way through the bulk update of `getMessages`, which would leave some matching messages marked and others not, is not modelled: the bulk update either happens whole or fails whole.
- Auth.UserTable.Signup: the User model's own validators and its password hashing are not part of this model; `saveFault` stands for any refusal of `save`, and the stored password is the one given.
- Auth.DbError: the controllers return the error handler's answer directly; `Gateway.DbErrorIsHandlerAnswer` proves it equals the handler's answer to an error without a status.
- The controllers are `async` functions that `throw`, and the routes register them directly (backend/routes/chatRoute.js:6-7). Their 400/401/409/500 answers assume that a rejected handler reaches the global error handler (backend/index.js:46), as Express 5 does. Under Express 4 such a rejection is never handled and the request gets no answer. No package manifest is part of this model, so the Express version is assumed, not known.
- Gateway.Gateway.MessageRead: a receipt with no message id, which the page sends for a socket-delivered message, is not modelled at the gateway; Mongoose's handling of an undefined id is not part of this model.
- Casting a malformed id to an ObjectId, which the driver refuses, is not modelled, because ids are natural numbers.
- Timers are not modelled. That covers the 1000 ms typing-stop timeout of `handleTyping`, which is only described, and the `at: new Date()` of read notices, which is the `now` parameter.
- Rendering, `toLocaleTimeString` and the ack handler's console output on the chat page are not modelled.
- Password hashing in the User model is not part of this model. `comparePassword`, `jwt.sign` and `jwt.verify` are opaque function parameters, and token expiry is not modelled.
- The `catch` branches of `verifyToken` and `verifySocket` ("Error verifying token") are not modelled: with string headers, nothing inside those `try` blocks can throw.
- Gateway.Gateway.MessageRead: does not check that the caller is the message's receiver, because the source does not either. It models the unknown-id `TypeError` as an error event without its message text.
- Gateway.Gateway.SendMessage: the error ack carries the failure kind (missing fields or database failure), not JavaScript's `error.message` text.
- Gateway.ErrorStatus: the source's status may be any JavaScript value. The model takes an optional integer, so non-numeric statuses are not modelled.
