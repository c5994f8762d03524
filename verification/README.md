# Chat client and backend core, modelled in Dafny

This project models the sequential logic of a chat application: a React/Redux web client
and a Go backend. One Dafny module stands for each source file of the core. The module
follows the form of its file: reducers, hooks, contexts and in-memory stores that update
state in place are classes, and pure helpers are functions with lemmas.

- `ChatUtils` (`chat/utils.js`): the message-merging routine of the chat store. Incoming
  messages replace stored ones with the same id. A confirmed message removes the temporary
  placeholder it stands for. The result is sorted by creation time.
- `ChatSlice` (`chatSlice.js`): the chat reducers and the thunk outcomes for messages, read
  marks and deletion, as the `ChatState` class.
- `ChatSelectors` (`chat/selectors.js`): the selectors and their defaults.
- `Virtualized` (`useVirtualizedMessages.js`): grouping of messages into same-sender runs,
  the visible window and the at-bottom test.
- `ReadReceipts` (`useReadMessages.js`): the read-receipt batcher, as the `ReadBatcher`
  class.
- `WebSocket` (`WebSocketContext.jsx`): the live connection, as the `Connection` class. It
  covers reconnect attempts, the outbound queue, inbound routing and the heartbeat.
- `ApiUtils` (`apiUtils.js`): the throttle, the sliding-window rate limiter, the circuit
  breaker, the retry loop and the request queue.
- `ApiContext` (`ApiContext.jsx`): error normalisation, capped backoff, the retry loop, the
  request interceptor's header rules and the token-refresh waiting queue.
- `ErrorUtils` (`error.js`): error types, their default messages, and the mapping from HTTP
  statuses.
- `FriendSlice` and `AuthSlice` (`friendSlice.js`, `authSlice.js`): the friend lists and
  the authentication flags.
- `Validation`, `Helpers`, `Format` and `DateUtils`: validators and formatters.
- `Storage` (`storage.js`): the local, session and in-memory key-value stores, with
  namespaces, migration, backup and restore.
- `ChatService`, `UserService` and `Models` (`services/chat.go`, `services/user.go`,
  `models/*.go`): the in-memory stores of the backend and the conversation response.
- `Common` and `ChatTypes`: shared plumbing. They hold Option and Result, a JSON value
  type, decimal text, and the message and conversation records of the client.

Conventions used throughout:

- Times are integer milliseconds. Clocks, random factors, the socket's `send` and the
  calls a retry loop makes are parameters.
- JSON values and dispatched Redux actions are data: `JsValue` and logged `Action`
  values.
- Backend object ids come from a counter, so every new id is fresh. A WebSocket
  delivery to a user is recorded in an outbox of events.

## Model

| member | source | states |
|---|---|---|
| ChatUtils.InsertByDatePermutes | frontend/src/store/slices/chat/utils.js:5-7 | one insertion step of the sort adds exactly the inserted message to the list's multiset |
| ChatUtils.InsertByDateSorted | frontend/src/store/slices/chat/utils.js:5-7 | inserting into a list ordered by `createdAt` keeps it ordered |
| ChatUtils.InsertByDateDistinct | frontend/src/store/slices/chat/utils.js:5-7 | inserting a message with a new id keeps the ids distinct |
| ChatUtils.SortPermutes | frontend/src/store/slices/chat/utils.js:4-8 | `sortMessagesByDate` returns a permutation of its input (same multiset) |
| ChatUtils.SortSorts | frontend/src/store/slices/chat/utils.js:4-8 | `sortMessagesByDate` returns the messages in non-decreasing `createdAt` order |
| ChatUtils.SortKeepsSorted | frontend/src/store/slices/chat/utils.js:4-8 | a list already in date order comes back unchanged (the comparator sort is stable) |
| ChatUtils.SortDistinct | frontend/src/store/slices/chat/utils.js:4-8 | sorting keeps the ids of a duplicate-free list distinct |
| ChatUtils.MapSetMembers | frontend/src/store/slices/chat/utils.js:38 | after `messagesMap.set`, the Map holds the new value and every entry with another key, nothing else |
| ChatUtils.MapSetKeys | frontend/src/store/slices/chat/utils.js:38 | the keys after `set` are the old keys plus the new one |
| ChatUtils.MapSetDistinct | frontend/src/store/slices/chat/utils.js:38 | `set` keeps the Map's keys distinct |
| ChatUtils.MapSetAppends | frontend/src/store/slices/chat/utils.js:19 | `set` of a new key appends the entry at the end of the insertion order |
| ChatUtils.MapSetReplaces | frontend/src/store/slices/chat/utils.js:38 | `set` of an existing key replaces its value in place and leaves every other position alone |
| ChatUtils.MapDeleteMembers | frontend/src/store/slices/chat/utils.js:34 | `messagesMap.delete` removes exactly the entries with that key |
| ChatUtils.MapDeleteKeys | frontend/src/store/slices/chat/utils.js:34 | after `delete` the keys are the old keys minus the deleted one |
| ChatUtils.MapDeleteDistinct | frontend/src/store/slices/chat/utils.js:34 | `delete` keeps the keys distinct |
| ChatUtils.BuildMapProps | frontend/src/store/slices/chat/utils.js:15-20 | the Map filled from the existing list has distinct keys, exactly the list's ids, only its messages, and for each id the last message carrying it |
| ChatUtils.BuildMapOfDistinct | frontend/src/store/slices/chat/utils.js:15-20 | for a list without duplicate ids the filled Map is that list, in order |
| ChatUtils.FindTemp | frontend/src/store/slices/chat/utils.js:26-31 | `existing.find(...)` returns the first placeholder (temporary, same sender and content, less than 60000 ms apart), or none when no message matches |
| ChatUtils.PlaceholderIds | frontend/src/store/slices/chat/utils.js:23-39 | at most one placeholder id is deleted per incoming message, each the id of an existing temporary message, and none for a batch of temporary messages |
| ChatUtils.FoldDistinct | frontend/src/store/slices/chat/utils.js:23-39 | processing the incoming batch keeps the Map's keys distinct |
| ChatUtils.FoldMembers | frontend/src/store/slices/chat/utils.js:23-39 | the Map only ever holds messages it started with or incoming ones |
| ChatUtils.FoldKeepsIncoming | frontend/src/store/slices/chat/utils.js:23-39 | an incoming message stays in the Map unless a later one sets its id again or deletes it as a placeholder |
| ChatUtils.FoldKeepsExisting | frontend/src/store/slices/chat/utils.js:23-39 | a starting entry stays unless an incoming message has its id or deletes it as a placeholder |
| ChatUtils.FoldRemovesPlaceholder | frontend/src/store/slices/chat/utils.js:33-35 | a deleted placeholder id stays absent unless an incoming message carries it |
| ChatUtils.FoldOnlySets | frontend/src/store/slices/chat/utils.js:23-39 | when no placeholder is found and every incoming id is already a key, the Map keeps its length and each entry becomes the last incoming value with its id |
| ChatUtils.MergeMessages | frontend/src/store/slices/chat/utils.js:13-44 | `mergeMessages` (its forEach loops) computes the merge specification; the result has distinct ids, is in `createdAt` order and holds only existing or incoming messages |
| ChatUtils.MergeKeepsIncoming | frontend/src/store/slices/chat/utils.js:13-44 | every incoming message is in the merge unless a later one supersedes its id or deletes it as a placeholder |
| ChatUtils.MergeKeepsExisting | frontend/src/store/slices/chat/utils.js:13-44 | an existing message survives unless an incoming message has its id or it is a removed placeholder |
| ChatUtils.MergeRemovesPlaceholder | frontend/src/store/slices/chat/utils.js:25-36 | the placeholder found for a confirmed incoming message is gone from the merge unless an incoming message carries its id |
| ChatUtils.IncomingLastPresent | frontend/src/store/slices/chat/utils.js:13-44 | for a settled batch, the last incoming message with each id is in the merge |
| ChatUtils.NoPlaceholderLeft | frontend/src/store/slices/chat/utils.js:25-36 | for a settled batch, no incoming message finds a placeholder in the merged list |
| ChatUtils.MergeIdempotent | frontend/src/store/slices/chat/utils.js:13-44 | merging the same settled batch (confirmed messages, at most one placeholder each, no id shared with a temporary message) twice equals merging it once |
| ChatUtils.IsTempMessage | frontend/src/store/slices/chat/utils.js:49-51 | true exactly when the id starts with "temp-" |
| ChatUtils.IsOwnMessage | frontend/src/store/slices/chat/utils.js:56-58 | true exactly when the sender is the current user |
| ChatUtils.IsMessageRead | frontend/src/store/slices/chat/utils.js:70-72 | true exactly when a read-by list is given and is non-empty; the message is not consulted |
| ChatSelectors.SelectConversationById | frontend/src/store/slices/chat/selectors.js:20-23 | the first conversation with that id, and nothing exactly when no conversation has it |
| ChatSelectors.SelectMessagesByConversationId | frontend/src/store/slices/chat/selectors.js:25-28 | the stored list for the conversation, or the empty list when it has none |
| ChatSelectors.SelectUnreadCountByConversationId | frontend/src/store/slices/chat/selectors.js:30-33 | the stored unread count, or 0 when the conversation has none |
| ChatSelectors.SelectIsTyping | frontend/src/store/slices/chat/selectors.js:35-38 | the stored list of typing users, or the empty list |
| ChatSelectors.SelectIsOnline | frontend/src/store/slices/chat/selectors.js:40-43 | true exactly when the user id occurs in the online list |
| ChatSelectors.SelectIsSendingMessage | frontend/src/store/slices/chat/selectors.js:45-48 | true exactly when the message id occurs in the sending list (an `undefined` entry matches no id) |
| ChatSlice.FindIndex | frontend/src/store/slices/chatSlice.js:43-45 | `findIndex` on a message list: -1 exactly when no message has the id, otherwise the first position holding it |
| ChatSlice.FindConversationIndex | frontend/src/store/slices/chatSlice.js:54-56 | `findIndex` on the conversation list: -1 exactly when no conversation has the id, otherwise the first position holding it |
| ChatSlice.UpsertIsMapSet | frontend/src/store/slices/chatSlice.js:43-51 | replacing the first message with the id, or pushing when there is none, is the same as a Map `set` on the list |
| ChatSlice.MapSetLength | frontend/src/store/slices/chatSlice.js:43-51 | `addMessage` grows the list by one exactly when the id was new |
| ChatSlice.TouchConversationSpec | frontend/src/store/slices/chatSlice.js:54-64 | only the first conversation with the id changes, only in `lastMessage` and `updatedAt`, and it takes the message and its creation time |
| ChatSlice.SetStatusFirstSpec | frontend/src/store/slices/chatSlice.js:69-76 | only the `status` of the first message with the id changes, it takes the new status, and distinct ids stay distinct |
| ChatSlice.MarkReadSpec | frontend/src/store/slices/chatSlice.js:214-219 | exactly the listed messages become read, nothing else changes, and distinct ids stay distinct |
| ChatSlice.PendingEntryOutlivesSuccess | frontend/src/store/slices/chatSlice.js:192-203 | when the thunk argument's `tempId` differs from the generated one, the entry pushed on `pending` is still in the sending list after `fulfilled` |
| ChatSlice.RemoveConversationSpec | frontend/src/store/slices/chatSlice.js:282 | the filter keeps exactly the conversations with another id, never lengthens the list, and changes nothing when the id is absent |
| ChatSlice.ChatState.constructor | frontend/src/store/slices/chatSlice.js:6-22 | `initialState`: empty lists and maps, no active conversation, `disconnected`, no loading flags |
| ChatSlice.ChatState.SetActiveConversation | frontend/src/store/slices/chatSlice.js:28-30 | the active conversation becomes the payload |
| ChatSlice.ChatState.SetConnectionStatus | frontend/src/store/slices/chatSlice.js:31-33 | the connection status becomes the payload |
| ChatSlice.ChatState.AddMessage | frontend/src/store/slices/chatSlice.js:34-65 | the conversation's list (created if missing) gets the message by Map `set`, grows by one exactly when the id is new, and the conversation list is touched; the state invariant (distinct message ids) is kept |
| ChatSlice.ChatState.UpdateMessageStatus | frontend/src/store/slices/chatSlice.js:66-79 | in every stored conversation, the first message with the id takes the new status; no conversation is added or removed |
| ChatSlice.ChatState.UpdateTypingStatus | frontend/src/store/slices/chatSlice.js:80-92 | the list is created if missing; afterwards the user is in it exactly when typing, added once or filtered out everywhere |
| ChatSlice.ChatState.AddOnlineUser | frontend/src/store/slices/chatSlice.js:93-97 | the user is appended when absent, so the online list stays duplicate-free |
| ChatSlice.ChatState.RemoveOnlineUser | frontend/src/store/slices/chatSlice.js:98-100 | every occurrence of the user is filtered out |
| ChatSlice.ChatState.SelectMessage | frontend/src/store/slices/chatSlice.js:101-106 | the message id is appended when absent |
| ChatSlice.ChatState.DeselectMessage | frontend/src/store/slices/chatSlice.js:107-110 | every occurrence of the message id is filtered out |
| ChatSlice.ChatState.ClearSelectedMessages | frontend/src/store/slices/chatSlice.js:111-113 | the selection becomes empty |
| ChatSlice.ChatState.IncrementUnreadCount | frontend/src/store/slices/chatSlice.js:114-117 | the conversation's counter (0 when missing) goes up by one; other counters are unchanged |
| ChatSlice.ChatState.ClearUnreadCount | frontend/src/store/slices/chatSlice.js:118-121 | the conversation's counter becomes 0; other counters are unchanged |
| ChatSlice.ChatState.AddSendingMessage | frontend/src/store/slices/chatSlice.js:122-124 | the payload is pushed, duplicates allowed |
| ChatSlice.ChatState.RemoveSendingMessage | frontend/src/store/slices/chatSlice.js:125-127 | every occurrence of the payload is filtered out |
| ChatSlice.ChatState.GetMessagesPending | frontend/src/store/slices/chatSlice.js:174-177 | messages are loading and the error is cleared |
| ChatSlice.ChatState.GetMessagesFulfilled | frontend/src/store/slices/chatSlice.js:178-185 | the fetched page is merged into the stored list (empty when missing); the result is date-ordered |
| ChatSlice.ChatState.GetMessagesRejected | frontend/src/store/slices/chatSlice.js:186-189 | loading stops and the error is the payload |
| ChatSlice.ChatState.SendMessagePending | frontend/src/store/slices/chatSlice.js:192-195 | the argument's `tempId` (possibly undefined) is pushed on the sending list |
| ChatSlice.ChatState.SendMessageFulfilled | frontend/src/store/slices/chatSlice.js:196-203 | the confirmed message is merged into the conversation and is in it; the generated `tempId` is filtered from the sending list |
| ChatSlice.ChatState.SendMessageRejected | frontend/src/store/slices/chatSlice.js:204-208 | the argument's `tempId` is filtered from the sending list and the error is the payload |
| ChatSlice.ChatState.MarkMessagesAsReadFulfilled | frontend/src/store/slices/chatSlice.js:211-222 | a stored list gets `read` on exactly the listed ids; the unread counter becomes 0 even when no list is stored |
| ChatSlice.ChatState.DeleteMessageFulfilled | frontend/src/store/slices/chatSlice.js:225-232 | a stored list loses every message with the id; a missing list stays missing |
| ChatSlice.ChatState.DeleteConversationFulfilled | frontend/src/store/slices/chatSlice.js:280-288 | the conversation, its messages and its counter are removed; the active conversation is cleared only when it equals the id |
| ReadReceipts.FlushFrame | frontend/src/hooks/useReadMessages.js:38-50 | one pending id gives a `read_status` frame carrying that id; several give `batch_read_status` carrying all of them in order |
| ReadReceipts.IdArray | frontend/src/hooks/useReadMessages.js:48 | the ids become a JSON array of strings, one per id, in order |
| ReadReceipts.UnreadIds | frontend/src/hooks/useReadMessages.js:86-88 | exactly the ids of messages sent by someone else whose status is not `read`; never more than the messages |
| ReadReceipts.AddAllSpec | frontend/src/hooks/useReadMessages.js:92-97 | adding ids to the pending set keeps what was there in place, gains exactly the new ids, stays duplicate-free, and grows exactly when some id was new |
| ReadReceipts.ConversationToMark | frontend/src/hooks/useReadMessages.js:80-81 | `conversationId \|\| activeConversation?.id`: the argument when non-empty, else the active conversation's non-empty id, else nothing |
| ReadReceipts.ReadBatcher.constructor | frontend/src/hooks/useReadMessages.js:15-16 | an empty pending set and no timer |
| ReadReceipts.ReadBatcher.ProcessBatchReads | frontend/src/hooks/useReadMessages.js:28-54 | an empty set sends nothing; otherwise one dispatch and one frame carry all pending ids, and the set is emptied |
| ReadReceipts.ReadBatcher.ScheduleBatchProcess | frontend/src/hooks/useReadMessages.js:57-67 | any armed flush is replaced by one due 500 ms later |
| ReadReceipts.ReadBatcher.MarkAsRead | frontend/src/hooks/useReadMessages.js:70-76 | an id already pending changes nothing, not even the timer; a new id joins the set and re-arms the timer |
| ReadReceipts.ReadBatcher.TimerFires | frontend/src/hooks/useReadMessages.js:63-66 | the armed timer flushes the batch and clears the handle; with no timer armed nothing happens |
| ReadReceipts.ReadBatcher.MarkAllAsRead | frontend/src/hooks/useReadMessages.js:79-103 | without a conversation or a user nothing happens; otherwise the unread messages of others join the set, and the timer is re-armed exactly when some id was new |
| ReadReceipts.ReadBatcher.Cleanup | frontend/src/hooks/useReadMessages.js:113-122 | with a stored handle the timer is cancelled and a non-empty set is flushed at once; without one nothing happens; the handle is not cleared |
| Virtualized.GroupMessages | frontend/src/hooks/useVirtualizedMessages.js:16-50 | `groupedMessages`: no runs exactly for no messages; the runs, concatenated, are the list sorted by `createdAt`; runs are non-empty, neighbours inside a run have the same sender and are less than the threshold apart, and consecutive runs do not join |
| Virtualized.CutIntoRuns | frontend/src/hooks/useVirtualizedMessages.js:24-47 | the `for` loop over the sorted copy cuts it into well-grouped runs whose concatenation is that copy |
| Virtualized.JoinKeepsGrouped | frontend/src/hooks/useVirtualizedMessages.js:35-36 | appending a message that joins the last message of the current run keeps the runs well grouped |
| Virtualized.SplitKeepsGrouped | frontend/src/hooks/useVirtualizedMessages.js:37-41 | starting a new run with a message that does not join keeps the runs well grouped |
| Virtualized.CeilDiv | frontend/src/hooks/useVirtualizedMessages.js:67 | `Math.ceil(a / b)`: the least integer whose multiple of `b` reaches `a` |
| Virtualized.GetVisibleMessages | frontend/src/hooks/useVirtualizedMessages.js:58-78 | without a container all runs, from 0 to the last; otherwise the window's start and end indices as the code clamps them, each item the run at its index with offset `index * itemHeight` |
| Virtualized.VisibleRowsInsideTotalHeight | frontend/src/hooks/useVirtualizedMessages.js:53-78 | every rendered row lies inside `totalHeight` (runs times `itemHeight`) |
| Virtualized.IsAtBottom | frontend/src/hooks/useVirtualizedMessages.js:102-108 | without a container the list is not at the bottom |
| Virtualized.IsAtBottomMeans | frontend/src/hooks/useVirtualizedMessages.js:102-108 | at the bottom exactly when less than 20 px remain below the viewport; scrolling further down stays at the bottom |
| FriendSlice.IndexOfId | frontend/src/store/slices/friendSlice.js:107 | `findIndex` by id: -1 exactly when no entry has the id, otherwise the first position holding it |
| FriendSlice.WithoutIdMembers | frontend/src/store/slices/friendSlice.js:197-199 | `filter(x => x.id !== id)` keeps exactly the entries with another id, never lengthens, and keeps a list without the id as it is |
| FriendSlice.WithoutIdAppend | frontend/src/store/slices/friendSlice.js:241-243 | the filter keeps the surviving entries in order: it distributes over concatenation |
| FriendSlice.WithoutIdUnique | frontend/src/store/slices/friendSlice.js:197-199 | filtering a list with distinct ids leaves them distinct |
| FriendSlice.PushIfNewId | frontend/src/store/slices/friendSlice.js:98-100 | `if (!some(id)) push`: unchanged when the id is present, otherwise the item appended; afterwards the id is present and distinct ids stay distinct |
| FriendSlice.FriendFromRequest | frontend/src/store/slices/friendSlice.js:113-119 | the friend built from an accepted request carries the recipient's id, name and avatar, offline, status `active` |
| FriendSlice.FriendState.constructor | frontend/src/store/slices/friendSlice.js:6-18 | `initialState`: empty lists, no loading flags, no error |
| FriendSlice.FriendState.ClearFriendError | frontend/src/store/slices/friendSlice.js:92-94 | the error is cleared |
| FriendSlice.FriendState.AddIncomingFriendRequest | frontend/src/store/slices/friendSlice.js:95-101 | a request whose id is already received is ignored, otherwise appended; distinct ids stay distinct |
| FriendSlice.FriendState.UpdateFriendRequestStatus | frontend/src/store/slices/friendSlice.js:102-123 | the first sent request with the id takes the status and, on `accepted`, its recipient is appended to the friends; an unknown id changes nothing |
| FriendSlice.FriendState.AddNewFriend | frontend/src/store/slices/friendSlice.js:124-130 | a friend whose id is already listed is ignored, otherwise appended; distinct ids stay distinct |
| FriendSlice.FriendState.UpdateFriendOnlineStatus | frontend/src/store/slices/friendSlice.js:131-138 | only `isOnline` of the first friend with the id changes; an unknown user changes nothing |
| FriendSlice.FriendState.GetFriendsPending | frontend/src/store/slices/friendSlice.js:143-146 | friends are loading and the error is cleared |
| FriendSlice.FriendState.GetFriendsFulfilled | frontend/src/store/slices/friendSlice.js:147-150 | the friends list is replaced by the payload |
| FriendSlice.FriendState.GetFriendsRejected | frontend/src/store/slices/friendSlice.js:151-155 | loading stops and the error is the payload |
| FriendSlice.FriendState.GetFriendRequestsPending | frontend/src/store/slices/friendSlice.js:158-161 | requests are loading and the error is cleared |
| FriendSlice.FriendState.GetFriendRequestsFulfilled | frontend/src/store/slices/friendSlice.js:162-165 | both request lists are replaced by the payload |
| FriendSlice.FriendState.GetFriendRequestsRejected | frontend/src/store/slices/friendSlice.js:166-170 | loading stops and the error is the payload |
| FriendSlice.FriendState.OperationPending | frontend/src/store/slices/friendSlice.js:173-176 | the pending case of send, accept, reject and remove: operations are loading and the error is cleared |
| FriendSlice.FriendState.OperationRejected | frontend/src/store/slices/friendSlice.js:182-186 | the rejected case of send, accept, reject and remove: loading stops and the error is the payload |
| FriendSlice.FriendState.SendFriendRequestFulfilled | frontend/src/store/slices/friendSlice.js:177-181 | the new request is appended to `sent` without an id check |
| FriendSlice.FriendState.AcceptFriendRequestFulfilled | frontend/src/store/slices/friendSlice.js:193-204 | every received request with the id is removed, distinct ids stay distinct, and the friend is appended without an id check |
| FriendSlice.FriendState.RejectFriendRequestFulfilled | frontend/src/store/slices/friendSlice.js:216-225 | every received request with the id is removed; nothing else changes |
| FriendSlice.FriendState.RemoveFriendFulfilled | frontend/src/store/slices/friendSlice.js:237-246 | exactly the friends with another id remain, in order |
| AuthSlice.ErrorOrDefault | frontend/src/store/slices/authSlice.js:179-182 | `action.payload?.error \|\| fallback`: the payload's truthy `error` field, else the fallback; always truthy |
| AuthSlice.RefreshTokenThunk | frontend/src/store/slices/authSlice.js:38-50 | without a truthy stored refresh token the thunk rejects with "No refresh token" and makes no request; otherwise the request's outcome decides |
| AuthSlice.AuthState.constructor | frontend/src/store/slices/authSlice.js:109-118 | `initialState`: no user, no tokens, unauthenticated, not loading, no error, not initialised, no message |
| AuthSlice.AuthState.Logout | frontend/src/store/slices/authSlice.js:124-131 | user, both tokens and message cleared; unauthenticated and initialised; `error` and `loading` untouched |
| AuthSlice.AuthState.ClearError | frontend/src/store/slices/authSlice.js:132-134 | the error is cleared |
| AuthSlice.AuthState.ClearMessage | frontend/src/store/slices/authSlice.js:135-137 | the message is cleared |
| AuthSlice.AuthState.SetToken | frontend/src/store/slices/authSlice.js:138-142 | both tokens come from the payload's snake-case fields and the state is authenticated whatever their values; a null or undefined payload throws and leaves the state unchanged |
| AuthSlice.AuthState.SetInitialized | frontend/src/store/slices/authSlice.js:143-145 | `initialized` becomes the payload |
| AuthSlice.AuthState.PendingClearingError | frontend/src/store/slices/authSlice.js:150-153 | the pending case of login, register, forgotPassword, resetPassword and verifyEmail: loading with the error cleared |
| AuthSlice.AuthState.PendingKeepingError | frontend/src/store/slices/authSlice.js:185-187 | the pending case of refreshToken and getUserData: loading with the error kept |
| AuthSlice.AuthState.LoginFulfilled | frontend/src/store/slices/authSlice.js:154-162 | authenticated and initialised with the payload's user and camel-case tokens and the success message; a null or undefined payload throws and leaves the state unchanged |
| AuthSlice.AuthState.LoginRejected | frontend/src/store/slices/authSlice.js:163-168 | unauthenticated, initialised, error is the payload; user and tokens stay |
| AuthSlice.AuthState.RegisterFulfilled | frontend/src/store/slices/authSlice.js:175-178 | only the success message changes; authentication does not |
| AuthSlice.AuthState.RejectedWithDefault | frontend/src/store/slices/authSlice.js:179-182 | the rejected case of register, getUserData, forgotPassword, resetPassword and verifyEmail: the payload's error text or the case's default |
| AuthSlice.AuthState.RefreshTokenFulfilled | frontend/src/store/slices/authSlice.js:188-195 | new tokens from the payload, authenticated, initialised, error cleared; a null or undefined payload throws and leaves the state unchanged |
| AuthSlice.AuthState.RefreshTokenRejected | frontend/src/store/slices/authSlice.js:196-201 | unauthenticated, initialised, error is the payload; the tokens stay |
| AuthSlice.AuthState.GetUserDataFulfilled | frontend/src/store/slices/authSlice.js:207-210 | only the user changes, to the payload's; a null or undefined payload throws and leaves the state unchanged |
| AuthSlice.AuthState.FulfilledWithMessage | frontend/src/store/slices/authSlice.js:221-224 | the fulfilled case of forgotPassword, resetPassword and verifyEmail: only the message changes |
| AuthSlice.LogoutThenRefresh | frontend/src/store/slices/authSlice.js:124-131 | after logout a successful refresh authenticates again, with the new tokens and no user; a refresh whose payload is null or undefined leaves the session logged out |
| ApiUtils.Throttle.constructor | frontend/src/utils/apiUtils.js:38-39 | a new throttle with the given limit, idle, having run nothing |
| ApiUtils.Throttle.Call | frontend/src/utils/apiUtils.js:41-51 | a call runs `func` at once exactly when the throttle is idle and is dropped otherwise, never deferred; a run that completes arms the window, a throwing one does not |
| ApiUtils.ThrottleDropsInsideWindow | frontend/src/utils/apiUtils.js:44-49 | a call fewer than `limit` ms after a completed run is dropped |
| ApiUtils.EvictSpec | frontend/src/utils/apiUtils.js:241-243 | the eviction loop keeps a suffix whose head is inside the window and drops only entries before the cutoff; on an ascending list every kept entry is inside the window |
| ApiUtils.RateLimiter.constructor | frontend/src/utils/apiUtils.js:233-234 | the limiter starts with no recorded requests |
| ApiUtils.RateLimiter.Check | frontend/src/utils/apiUtils.js:236-246 | every call is recorded, denied ones included; stale head entries are evicted and the call is allowed exactly when at most `maxRequests` remain |
| ApiUtils.RateLimiterWindow | frontend/src/utils/apiUtils.js:236-246 | with a clock that never goes back the recorded times stay ascending, all lie inside the window ending at the call, and the call itself is kept |
| ApiUtils.CircuitBreaker.constructor | frontend/src/utils/apiUtils.js:254-269 | CLOSED with no failures, the given threshold and timeout, monitor running |
| ApiUtils.CircuitBreaker.Admit | frontend/src/utils/apiUtils.js:273-276 | a call is admitted exactly when the breaker is not OPEN |
| ApiUtils.CircuitBreaker.Settle | frontend/src/utils/apiUtils.js:278-292 | on the state found when `fn` settles: a success closes a HALF-OPEN breaker and resets the count and otherwise changes nothing; a failure counts, records its time and opens the breaker once the count reaches the threshold; the invariant between state and count is kept |
| ApiUtils.CircuitBreaker.Execute | frontend/src/utils/apiUtils.js:272-294 | with no other call settling meanwhile: OPEN refuses without calling; a success in HALF-OPEN closes and resets the count; a failure counts, records its time and opens the breaker once the count reaches the threshold |
| ApiUtils.CircuitBreaker.MonitorTick | frontend/src/utils/apiUtils.js:265-269 | a running monitor moves OPEN to HALF-OPEN once more than `resetTimeout` ms have passed since the last failure; nothing else changes the state |
| ApiUtils.CircuitBreaker.GetState | frontend/src/utils/apiUtils.js:295 | the current state |
| ApiUtils.CircuitBreaker.Reset | frontend/src/utils/apiUtils.js:296-299 | CLOSED with no failures |
| ApiUtils.CircuitBreaker.Destroy | frontend/src/utils/apiUtils.js:300-302 | the monitor stops, so an OPEN breaker stays OPEN until reset |
| ApiUtils.OverlappingCalls | frontend/src/utils/apiUtils.js:272-294 | two calls admitted while CLOSED one failure short: the first failure opens the breaker and the later success leaves it OPEN |
| ApiUtils.FirstSuccess | frontend/src/utils/apiUtils.js:121-134 | the first attempt below `n` that succeeds, with every earlier one failing, or none when all fail |
| ApiUtils.RetryApiCall | frontend/src/utils/apiUtils.js:118-135 | no positive `maxRetries` resolves undefined without a call; otherwise it resolves with the first success or rejects with the last failure after exactly `maxRetries` calls, waiting `delay * 2^k` after the k-th failure |
| ApiUtils.RequestQueue.constructor | frontend/src/utils/apiUtils.js:193-194 | empty queue, nothing processing |
| ApiUtils.RequestQueue.ProcessQueue | frontend/src/utils/apiUtils.js:196-200 | when nothing runs and the queue is non-empty, the head is shifted off and started; otherwise nothing changes |
| ApiUtils.RequestQueue.Add | frontend/src/utils/apiUtils.js:214-219 | the request joins the tail and starts at once when nothing is running |
| ApiUtils.RequestQueue.Settle | frontend/src/utils/apiUtils.js:202-210 | when the running request settles either way, the next one in FIFO order starts |
| ApiUtils.RequestQueue.Clear | frontend/src/utils/apiUtils.js:220-222 | the waiting requests are dropped; the running one is not affected |
| ApiUtils.RequestQueue.GetLength | frontend/src/utils/apiUtils.js:223 | the number of waiting requests |
| ApiContext.NormalizeError | frontend/src/contexts/ApiContext.jsx:19-62 | no response is exactly the network error with status 0; 401, 429 and `>= 500` are exactly the auth, rate-limit and server flags; any other status keeps the body's truthy `message` or the generic text, and only that case carries `data` |
| ApiContext.CappedDelay | frontend/src/contexts/ApiContext.jsx:67-70 | the delay before jitter is positive and never above `maxDelay` (30000 ms) |
| ApiContext.GetBackoffTime | frontend/src/contexts/ApiContext.jsx:65-73 | the delay is the capped delay scaled by a factor in [0.9, 1.1), so always below 1.1 times the cap |
| ApiContext.BackoffCapReached | frontend/src/contexts/ApiContext.jsx:67-70 | up to attempt 8 the delay is `1000 * 1.5^attempt`; from attempt 9 on it is the 30000 ms cap |
| ApiContext.RetryableMeans | frontend/src/contexts/ApiContext.jsx:208-213 | exactly network errors and server errors (status `>= 500`) are retried |
| ApiContext.RetryRequest | frontend/src/contexts/ApiContext.jsx:201-227 | no positive `retries` makes no attempt; otherwise at most `retries` attempts, every one before the last a retryable failure, the k-th wait `getBackoffTime(k + 1)`, and the outcome is the last attempt's response or its error, the error only when non-retryable or out of retries |
| ApiContext.RequestConfig.constructor | frontend/src/contexts/ApiContext.jsx:108 | a request configuration not yet retried |
| ApiContext.RequestConfig.InterceptRequest | frontend/src/contexts/ApiContext.jsx:107-127 | `skipAuth` leaves the headers alone; otherwise a non-empty token sets the Bearer header and a non-empty CSRF token sets `X-CSRF-Token` unless the method is GET, HEAD or OPTIONS; no other header is added or changed |
| ApiContext.ErrorDecision | frontend/src/contexts/ApiContext.jsx:136-156 | the refresh path is taken exactly for a first 401 on an auth request while a refresh token exists; it starts a refresh when none is in flight and waits otherwise |
| ApiContext.SettleAll | frontend/src/contexts/ApiContext.jsx:95-104 | one settlement per waiter, in queue order: all rejected with a truthy error, otherwise all resolved with the token |
| ApiContext.SettleEach | frontend/src/contexts/ApiContext.jsx:96-102 | the `forEach` loop yields exactly those settlements |
| ApiContext.TokenRefresher.constructor | frontend/src/contexts/ApiContext.jsx:92-93 | not refreshing, empty queue |
| ApiContext.TokenRefresher.ProcessQueue | frontend/src/contexts/ApiContext.jsx:95-104 | every parked request is settled once, in order, and the queue is emptied |
| ApiContext.TokenRefresher.OnResponseError | frontend/src/contexts/ApiContext.jsx:132-191 | the decision above; a request taking the refresh path is marked `_retry`; a waiting request is parked at the tail; a started refresh sets `isRefreshing` |
| ApiContext.TokenRefresher.OnRefreshSettled | frontend/src/contexts/ApiContext.jsx:161-187 | failure rejects every parked request with the refresh error and dispatches one logout; success resolves them with the new token, which also becomes the original request's Bearer header; either way the refresh is over and the queue empty |
| ApiContext.SecondFailureRejected | frontend/src/contexts/ApiContext.jsx:136-142 | a request goes through the refresh path at most once: after it was parked or started a refresh, a further failure is rejected as it is |
| WebSocket.ReconnectDelayIncreasing | frontend/src/contexts/WebSocketContext.jsx:130 | each further reconnect attempt waits 1.5 times as long as the one before |
| WebSocket.ReconnectDelayUnbounded | frontend/src/contexts/WebSocketContext.jsx:130 | the reconnect delay has no cap: some attempt number exceeds any bound |
| WebSocket.ReconnectSchedule | frontend/src/contexts/WebSocketContext.jsx:19-23 | the five delays before failure is reported are 3000, 4500, 6750, 10125 and 15187.5 ms |
| WebSocket.Route | frontend/src/contexts/WebSocketContext.jsx:72-118 | the `switch (data.type)`: a null frame, or a payload-reading type without a payload, throws (caught, nothing dispatched); the five known types dispatch their action; any other type dispatches nothing |
| WebSocket.RoutePayloadFields | frontend/src/contexts/WebSocketContext.jsx:82-106 | `message_status`, `friend_status` and `typing` carry the payload's fields into the dispatched action |
| WebSocket.PongDispatchesNothing | frontend/src/contexts/WebSocketContext.jsx:108-110 | a `pong` dispatches nothing |
| WebSocket.LeadingAccepted | frontend/src/contexts/WebSocketContext.jsx:181-190 | the number of frames at the head of the queue that `send` takes before it first throws: all accepted, and the next one refused |
| WebSocket.LeadingAcceptedUnique | frontend/src/contexts/WebSocketContext.jsx:181-190 | that number is determined by the queue: any accepted prefix followed by a refusal or the end is it |
| WebSocket.Connection.constructor | frontend/src/contexts/WebSocketContext.jsx:37-51 | disconnected, no socket, no timers, no attempts, empty queue, last activity now |
| WebSocket.Connection.Publish | frontend/src/contexts/WebSocketContext.jsx:125 | `dispatch(setConnectionStatus(s))` is recorded and becomes the status |
| WebSocket.Connection.AttemptReconnect | frontend/src/contexts/WebSocketContext.jsx:122-135 | at the limit of 5 the status is `failed` and the count resets without a timer; below it the status is `reconnecting`, the count goes up and a reconnect is armed after `3000 * 1.5^attempts` ms |
| WebSocket.Connection.Connect | frontend/src/contexts/WebSocketContext.jsx:208-286 | a connect while one is in progress does nothing; without a token the status is `disconnected`; a created socket starts `connecting` with the timeout armed; a constructor that throws reports `error` and then, as a reconnect attempt does, either `reconnecting` with the attempt counted and its timer set, or `failed` with the count reset; the outgoing queue is untouched |
| WebSocket.Connection.ReconnectTimerFires | frontend/src/contexts/WebSocketContext.jsx:132-134 | with no reconnect armed nothing happens; otherwise `connect` runs |
| WebSocket.Connection.OnOpen | frontend/src/contexts/WebSocketContext.jsx:249-261 | connected with the attempts reset, pinging, the timeout cleared, and the queue drained up to the first frame `send` refuses |
| WebSocket.Connection.OnClose | frontend/src/contexts/WebSocketContext.jsx:265-272 | not connected, not pinging, `disconnected` then a reconnect attempt as above; the queue is kept |
| WebSocket.Connection.OnError | frontend/src/contexts/WebSocketContext.jsx:274-279 | the timeout is cleared, the status becomes `error` and the socket is asked to close |
| WebSocket.Connection.ConnectTimeoutFires | frontend/src/contexts/WebSocketContext.jsx:240-246 | a socket not open when the timeout fires is closed and a reconnect is attempted; an open one is left alone |
| WebSocket.Connection.HandleMessage | frontend/src/contexts/WebSocketContext.jsx:72-118 | a frame that does not parse changes nothing; otherwise the activity time is updated and exactly the routed action, if any, is dispatched |
| WebSocket.Connection.Tick | frontend/src/contexts/WebSocketContext.jsx:140-154 | an open socket gets a ping; a socket not open after more than 60000 ms of silence stops pinging, reports `disconnected` and attempts a reconnect; otherwise nothing happens |
| WebSocket.Connection.Disconnect | frontend/src/contexts/WebSocketContext.jsx:166-176 | the socket is asked to close, pinging stops, the pending reconnect is cancelled and the status is `disconnected` |
| WebSocket.Connection.ProcessPendingMessages | frontend/src/contexts/WebSocketContext.jsx:179-191 | when connected, the head-first drain sends the frames `send` accepts and stops at the first refused one, which stays at the head; otherwise nothing happens |
| WebSocket.Connection.SendMessage | frontend/src/contexts/WebSocketContext.jsx:194-205 | a frame is never dropped: it is sent when connected and accepted, and queued at the tail otherwise |
| WebSocket.Connection.SendTypingStatus | frontend/src/contexts/WebSocketContext.jsx:59-69 | throttled to one call per 1000 ms: a call inside the window is dropped; otherwise the typing frame goes out only on an open socket |
| ErrorUtils.TypeName | frontend/src/utils/error.js:8-17 | every `ERROR_TYPES` name ends in `_ERROR` |
| ErrorUtils.DefaultMessage | frontend/src/utils/error.js:22-31 | every type has a non-empty default message |
| ErrorUtils.NewAppError | frontend/src/utils/error.js:36-44 | an `AppError` keeps its type, and its details with `undefined` defaulting to `null`; a falsy message is replaced by the type's default and any other is converted with `String`, so only a truthy array can give an empty message |
| ErrorUtils.TypeFromStatus | frontend/src/utils/error.js:238-253 | 400, 401, 403, 404 and 500 map to validation, auth, permission, not-found and server; every other status to unknown; never network or client |
| ErrorUtils.MessageFromStatus | frontend/src/utils/error.js:260-262 | every status has a non-empty message, the default message of its type |
| ErrorUtils.HandleApiError | frontend/src/utils/error.js:62-94 | an `AppError` is returned as it is; a response gives its status's type, and a 400 without a body throws; no response with a request sent is a network error, otherwise a client error; details are the 400 body's `errors` (`null` when undefined) and `null` in every other case; an empty message can only come from an array message |
| ErrorUtils.RetryableAfterHandling | frontend/src/utils/error.js:218-231 | a raw response error is retryable exactly for 500, 502, 503 and 504, but once classified only 500 stays retryable |
| ErrorUtils.FormatError | frontend/src/utils/error.js:197-211 | an `AppError`'s message string, else the body's truthy message, else the error's truthy message, else the unknown-error text |
| ErrorUtils.FormattedHandledErrorIsTruthy | frontend/src/utils/error.js:62-94 | every raw error formats to a truthy message, and a classified one does too unless its message was an array |
| ErrorUtils.EmptyArrayBodyMessage | frontend/src/utils/error.js:71-72 | a 400 body whose message is `[]` is classified with the empty message, which formats to a falsy value |
| Validation.IsValidEmailMeans | frontend/src/utils/validation.js:10-13 | the pattern `^[^\s@]+@[^\s@]+\.[^\s@]+$` accepts exactly the strings without whitespace, with one '@' that has text before it, and after it a dot with text on both sides |
| Validation.RegexMatchHasShape | frontend/src/utils/validation.js:11 | a match of the pattern has that shape |
| Validation.ShapeMatchesRegex | frontend/src/utils/validation.js:11 | a string of that shape matches the pattern |
| Validation.PasswordErrorsSpec | frontend/src/utils/validation.js:32-55 | each password message appears exactly when its check fails, at most once, only from the five texts, and none exactly for a strong password (at least 8 UTF-16 code units and the four character classes) |
| Validation.SubsequenceOf | frontend/src/utils/validation.js:32-55 | the messages kept are distinct and a message is kept exactly when its check fails |
| Validation.ValidatePassword | frontend/src/utils/validation.js:20-58 | a missing password gives only "Password is required"; otherwise one message per failed check in source order; valid exactly when present and strong |
| Validation.ValidateUsername | frontend/src/utils/validation.js:65-93 | valid exactly when present, 3 to 20 UTF-16 code units long, all from `[A-Za-z0-9_-]`; one distinct message per failed check, or only "required" when missing |
| Validation.ValidateLength | frontend/src/utils/validation.js:100-118 | the shared length check: "required" alone when missing, the too-long message exactly when over the maximum, the too-short one when under the minimum, lengths counted in UTF-16 code units, at most two distinct messages |
| Validation.ValidateMessage | frontend/src/utils/validation.js:100-118 | valid exactly for 1 to 1000 UTF-16 code units (JavaScript `length`); "Message content is required" when missing |
| Validation.ValidateSearchQuery | frontend/src/utils/validation.js:215-238 | valid exactly for 2 to 50 UTF-16 code units (JavaScript `length`); "Search query is required" when missing |
| Validation.ValidateConversationName | frontend/src/utils/validation.js:270-293 | valid exactly for 3 to 50 UTF-16 code units (JavaScript `length`); "Conversation name is required" when missing |
| Validation.ValidateFriendRequest | frontend/src/utils/validation.js:245-263 | valid exactly for a truthy string; a falsy value is "required" and a truthy non-string "must be a string" |
| Validation.ValidateGroupParticipants | frontend/src/utils/validation.js:300-335 | valid exactly for an array of 2 to 50 distinct entries; a falsy value and a non-array each give their one message; otherwise one message per failed check |
| Validation.DistinctCount | frontend/src/utils/validation.js:328-329 | `new Set(items).size` never exceeds the length and equals it exactly when there are no duplicates |
| Validation.DistinctCountSpec | frontend/src/utils/validation.js:328-329 | the set of entries is no larger than the list, and as large exactly when the list has no duplicates |
| Validation.ValidateFile | frontend/src/utils/validation.js:126-155 | with the default options, valid exactly for a file of at most 5 MiB that is a JPEG, PNG or GIF; the size and type messages appear exactly when their checks fail; "File is required" when missing |
| Validation.RuleErrors | frontend/src/utils/validation.js:174-197 | a required rule on a falsy value gives exactly "field is required"; a non-required rule on a falsy value gives nothing; at most four truthy messages |
| Validation.MissingValueErrors | frontend/src/utils/validation.js:173-199 | a field without a value gets only "required" messages, and some exactly when one of its rules is required |
| Validation.FormErrorsKeys | frontend/src/utils/validation.js:169-205 | a field has an entry exactly when one of its rule lists produces a message |
| Validation.FormErrorsValues | frontend/src/utils/validation.js:169-205 | with distinct field names, a field's entry is exactly the messages its rules produce, in rule order |
| Validation.RunRules | frontend/src/utils/validation.js:173-199 | the inner loop yields the messages of the field's rules in rule order |
| Validation.ValidateForm | frontend/src/utils/validation.js:163-208 | the errors object has an entry exactly for the fields whose rules produce messages, each entry those messages; valid exactly when it is empty |
| Helpers.TrimStart | frontend/src/utils/helpers.js:12 | the leading-white-space cut of `trim` returns a suffix of the string that does not start with white space |
| Helpers.TrimEnd | frontend/src/utils/helpers.js:12 | the trailing cut returns a prefix of the string that does not end with white space |
| Helpers.TrimEmpty | frontend/src/utils/helpers.js:12 | `value.trim().length === 0` holds exactly when every character is white space |
| Helpers.IsEmpty | frontend/src/utils/helpers.js:10-16 | null and undefined are empty; a string exactly when it is all white space; an array exactly when it has no items; an object exactly when it has no keys; a boolean or number never |
| Helpers.IsNotEmpty | frontend/src/utils/helpers.js:23 | the negation of `isEmpty`; a string is non-empty exactly when some character is not white space |
| Helpers.IsValidPhoneMeans | frontend/src/utils/helpers.js:135-138 | `^\+?[1-9]\d{1,14}$` accepts exactly an optional '+' followed by 2 to 15 digits, the first not '0'; a valid number has 2 to 16 characters and ends in a digit |
| Helpers.IsValidPasswordMeans | frontend/src/utils/helpers.js:145-148 | the look-ahead pattern accepts exactly strings of at least 8 allowed characters that hold a lower-case letter, an upper-case letter, a digit and one of `@$!%*?&` |
| Helpers.UsernameRulesAgree | frontend/src/utils/helpers.js:155-158 | every name this pattern accepts with at most 20 characters uses only characters the form validator allows, and a name of 3 to 20 characters the validator accepts but this pattern rejects holds a hyphen |
| Helpers.TruncateText | frontend/src/utils/helpers.js:286-289 | a text within the limit is returned unchanged; a longer one becomes its first `length` characters and "...", so a prefix of the text and exactly 3 longer than the limit |
| Helpers.FindFirst | frontend/src/utils/helpers.js:211-217 | the position `String.replace` with a string pattern acts on: an occurrence with none before it, or none when the pattern does not occur |
| Helpers.ReplaceFirst | frontend/src/utils/helpers.js:211-217 | only the first occurrence of the pattern is replaced; a string without it is unchanged |
| Helpers.FindFirstSkip | frontend/src/utils/helpers.js:211-217 | a prefix none of whose characters starts the pattern shifts the first occurrence by its length |
| Helpers.FindFirstAbsent | frontend/src/utils/helpers.js:211-217 | a pattern whose first character is nowhere in the string does not occur |
| Helpers.FormatDateDefault | frontend/src/utils/helpers.js:201-218 | with the default format the result is the year, the month counted from 1 and the day, both padded to two digits, joined by '-': the time tokens never match |
| Helpers.DefaultTokens | frontend/src/utils/helpers.js:211-217 | replacing YYYY, MM and DD in "YYYY-MM-DD" by digit strings gives them joined by '-' |
| Helpers.FormatRelativeTimeBuckets | frontend/src/utils/helpers.js:225-245 | the unit is the largest the difference reaches (a month is 30 days, a year 12 months) and the count is the floor of the difference by it; under one second, or in the future, gives "just now" |
| Format.FormatRelativeTimeBuckets | frontend/src/utils/format.js:10-35 | under a minute (or in the future) is exactly "just now"; whole minutes under an hour, whole hours under a day and whole days under a week, each the floored count in its unit's range; from a week on exactly the locale date |
| Format.SchemeLength | frontend/src/utils/format.js:101 | the scheme `https?://` at the start: 8 exactly for "https://", 7 exactly for "http://", else 0 |
| Format.UrlLength | frontend/src/utils/format.js:101 | the link the pattern matches at the start: a scheme and at least one more character, none of them white space, running up to white space or the end; 0 without a scheme |
| Format.BreakLines | frontend/src/utils/format.js:105 | no newline is left, and a text without newlines is unchanged |
| Format.FormatMessageContent | frontend/src/utils/format.js:97-108 | a missing body gives the empty text; the result never holds a newline |
| Format.LinkifyPlain | frontend/src/utils/format.js:101-102 | text in which no link starts is left alone by the link pass |
| Format.FormatPlainContent | frontend/src/utils/format.js:97-108 | content without links or newlines is shown exactly as written |
| Format.FormatLeadingLink | frontend/src/utils/format.js:101-102 | a link up to white space is wrapped in one anchor and the rest of the text is processed after it |
| Format.FormatUsername | frontend/src/utils/format.js:115-118 | empty exactly for a missing name; else '@' followed by the name with no upper-case letter, one character longer than the name |
| Format.FormatUsernameIdempotent | frontend/src/utils/format.js:115-118 | formatting the formatted name again, without its '@', gives the same text |
| Format.FormatGroupName | frontend/src/utils/format.js:126-129 | empty exactly for a missing name; else the name followed by " (" and the member count |
| Format.FormatMessageStatus | frontend/src/utils/format.js:136-147 | "Sent", "Delivered" and "Read" exactly for the strings "sent", "delivered" and "read" under strict equality; "Sending..." for every other value |
| Format.FormatTypingStatus | frontend/src/utils/format.js:154-166 | empty exactly for a missing or empty list; one name "is typing...", two names joined by "and" "are typing...", three or more "Several people are typing..." |
| Format.FormatSearchResults | frontend/src/utils/format.js:174-184 | "No" for a missing or empty list, "1" and the singular type for one result, the count and the plural type otherwise |
| Format.SearchSummaryCount | frontend/src/utils/format.js:179-183 | the count the summary starts with reads back as the number of results |
| Format.FormatErrorMessage | frontend/src/utils/format.js:191-207 | a falsy error gives "An unknown error occurred", a truthy string is returned as it is, and the result is always a truthy message |
| Format.FormatNotificationCount | frontend/src/utils/format.js:214-222 | empty exactly for 0; "99+" above 99; the number's decimal text otherwise |
| Format.NotificationBadge | frontend/src/utils/format.js:214-222 | a count from 1 to 99 shows as one or two digits that read back as the count |
| Format.DigitsOf | frontend/src/utils/format.js:232 | the cleaned number holds only digits and is no longer than the input |
| Format.DigitsOfDigits | frontend/src/utils/format.js:232 | cleaning a string of digits leaves it unchanged |
| Format.FormatPhoneNumber | frontend/src/utils/format.js:229-240 | empty for a missing number; "(AAA) BBB-CCCC", 14 characters, when exactly ten digits remain after cleaning; otherwise the input unchanged |
| Format.FormatPhoneKeepsDigits | frontend/src/utils/format.js:229-240 | formatting never adds, drops or reorders the digits of the number |
| DateUtils.TimeTextShape | frontend/src/utils/dateUtils.js:21-23 | a clock time of the day reads "HH:MM": five characters, a colon in the middle, digits around it |
| DateUtils.FormatTime | frontend/src/utils/dateUtils.js:10-34 | empty exactly for a missing or unreadable date; otherwise it always ends with the time; the time alone today, "Hôm qua, " and the time yesterday |
| DateUtils.FormatTimeOlder | frontend/src/utils/dateUtils.js:29-33 | an older date starts with its unpadded day and month counted from 1, and adds the year only when it is not the current one |
| DateUtils.TimeAgo | frontend/src/utils/dateUtils.js:73-77 | a missing or unreadable date gives the empty text |
| DateUtils.TimeAgoBuckets | frontend/src/utils/dateUtils.js:79-95 | under a minute (or in the future) "Vừa xong"; floored minutes, hours and days, each in its unit's range, under an hour, a day and a week; from a week on exactly the text of `formatTime` |
| DateUtils.JsRem | frontend/src/utils/dateUtils.js:137-139 | JavaScript's `%`: the Euclidean remainder for a non-negative dividend, never positive for a non-positive one, strictly inside the divisor's range |
| DateUtils.ElapsedPartsSound | frontend/src/utils/dateUtils.js:133-139 | for a non-negative difference, hours below 24 and minutes and seconds below 60, together accounting for the difference up to the dropped milliseconds |
| DateUtils.GetTimeElapsed | frontend/src/utils/dateUtils.js:126-150 | empty exactly for a missing date; an unreadable date prints "NaNs" |
| DateUtils.GetTimeElapsedUnits | frontend/src/utils/dateUtils.js:141-149 | days and hours from a day on, hours and minutes from an hour, minutes and seconds from a minute, and the whole seconds alone below that |
| Storage.AreaOf | frontend/src/utils/storage.js:78-101 | local and session types select their own store, and an unknown type falls back to the in-memory store |
| Storage.Serialize | frontend/src/utils/storage.js:112 | a defined value is stored as its JSON; `undefined` is stored as the text "undefined", never as JSON |
| Storage.GetAfterSet | frontend/src/utils/storage.js:109-135 | reading a key just written gives the value back (the default for `undefined`) and writing one key changes no other key's reading |
| Storage.RewrittenEntries | frontend/src/utils/storage.js:255-260 | re-writing a store as `getAllItems` reads it keeps every key and every JSON entry; an entry written from `undefined` comes back as `null` |
| Storage.WriteAllSpec | frontend/src/utils/storage.js:295-297 | writing a list of entries into an empty store leaves exactly their keys, each with the value of its last entry |
| Storage.FieldValueDistinct | frontend/src/utils/storage.js:295-297 | with distinct keys, the value under a key is the one its own field carries |
| Storage.RestoreOfBackup | frontend/src/utils/storage.js:274-304 | writing back the fields of a backup of a store rebuilds the store as `getAllItems` reads it |
| Storage.Entries | frontend/src/utils/storage.js:295 | `Object.entries` throws exactly for `null` and `undefined`, and lists an object's fields in order |
| Storage.NamespacesDisjoint | frontend/src/utils/storage.js:332-338 | two different namespaces whose names hold no colon never address the same key |
| Storage.NamespacesCollideWithColon | frontend/src/utils/storage.js:333 | a colon in a namespace name lets two namespaces address the same key ("a" with "b:c", "a:b" with "c") |
| Storage.BrowserStorage.constructor | frontend/src/utils/storage.js:71 | all three stores start empty |
| Storage.BrowserStorage.SetItem | frontend/src/utils/storage.js:109-117 | only that key of the selected store changes, and reading it gives the value back |
| Storage.BrowserStorage.RemoveItem | frontend/src/utils/storage.js:142-149 | only that key of the selected store is deleted, and reading it gives the default |
| Storage.BrowserStorage.ClearStorage | frontend/src/utils/storage.js:155-162 | the selected store is emptied and the others are kept |
| Storage.BrowserStorage.GetAllItems | frontend/src/utils/storage.js:169-184 | one `getItem(key, null)` reading per key of the store |
| Storage.BrowserStorage.WriteItems | frontend/src/utils/storage.js:258-260 | every entry of the object is written into the store, and nothing else changes |
| Storage.BrowserStorage.MigrateStorage | frontend/src/utils/storage.js:253-267 | the target holds exactly the source's entries as `getAllItems` reads them, the other stores are kept, and it succeeds |
| Storage.BrowserStorage.BackupStorage | frontend/src/utils/storage.js:274-282 | the backup is a JSON object with one field per key of the store, no key twice, each holding that key's reading |
| Storage.BrowserStorage.RestoreStorage | frontend/src/utils/storage.js:290-304 | malformed text fails and changes nothing; `null` clears the store and then fails; otherwise the store is cleared and the parsed entries are written in order; other stores are kept |
| Storage.BrowserStorage.BackupThenRestore | frontend/src/utils/storage.js:274-304 | restoring a fresh backup into the same store gives back its contents, except that entries written from `undefined` come back as `null` |
| Storage.BrowserStorage.NamespaceSet | frontend/src/utils/storage.js:336-337 | `set` writes only the prefixed key, and `get` of that key reads the value back |
| Storage.BrowserStorage.NamespaceRemove | frontend/src/utils/storage.js:338 | `remove` deletes only the prefixed key |
| Storage.BrowserStorage.NamespaceClear | frontend/src/utils/storage.js:339-344 | `clear` removes exactly the keys that start with the prefix and keeps every other key |
| Storage.BrowserStorage.NamespaceGetAll | frontend/src/utils/storage.js:345-356 | `getAll` holds exactly the prefixed entries, under their keys with the prefix stripped, each as `getItem` reads it |
| ChatService.Utf8Length | backend/services/chat.go:173 | Go's `len` counts UTF-8 bytes: at least one and at most four per character, exactly one per character for ASCII text |
| ChatService.ContainsId | backend/services/chat.go:480-487 | true exactly when the id is in the list |
| ChatService.Deref | backend/services/chat.go:22-24 | the conversation list and each conversation's message list hold, position by position, the records their ids point at |
| ChatService.FirstPersonal | backend/services/chat.go:66-73 | the first conversation in creation order that is personal, has two participants and holds both users; none exactly when no conversation does |
| ChatService.FirstPersonalAt | backend/services/chat.go:66-73 | a conversation that passes the test after none before it did is the one found |
| ChatService.WithCreator | backend/services/chat.go:122-132 | the given participants in order, followed by the creator exactly when the creator is absent; the creator is always a member and nobody else is added |
| ChatService.ConversationPage | backend/services/chat.go:491-495 | 20 for a non-positive limit, the limit itself from 1 to 50, and never more than 50 |
| ChatService.FirstWithSpec | backend/services/chat.go:502-514 | at most `limit` conversations, all the user's and all from the list; fewer only when every conversation of the user is among them |
| ChatService.InsertByUpdatedSpec | backend/services/chat.go:517-519 | inserting into a list ordered by latest update keeps it ordered and adds exactly that conversation |
| ChatService.SortByUpdated | backend/services/chat.go:517-519 | the same conversations, latest update first |
| ChatService.VisibleOf | backend/services/chat.go:316 | exactly the stored messages created before `before` and not deleted |
| ChatService.NewestVisibleIsPage | backend/services/chat.go:314-320 | the backward scan returns the visible messages in storage order, reversed and cut at `limit` |
| ChatService.NewestVisibleBounds | backend/services/chat.go:314-320 | the page holds at most `limit` messages, only visible stored ones, and every visible one when it holds fewer than `limit` |
| ChatService.MarkRead | backend/services/chat.go:357-360 | the reader is appended once, the rest of the reader list and the message's identity, sender, content and times are kept, and the message is unchanged exactly when the reader was already there |
| ChatService.MarkReadTwice | backend/services/chat.go:357-360 | marking twice is marking once, and a reader list without duplicates stays so |
| ChatService.MarkAllSpec | backend/services/chat.go:386-397 | every listed stored message is marked once, however often it is listed; unknown ids are skipped and every other message and key is kept |
| ChatService.ReadEvents | backend/services/chat.go:411-420 | one read receipt per sender, in the given order, each listing all the given ids with the reader and the read status |
| ChatService.MessageEventsSpec | backend/services/chat.go:225-232 | every participant but the sender is told about the message, nobody else is, and each distinct participant exactly once |
| ChatService.FindPersonal | backend/services/chat.go:66-73 | the loop finds the first matching conversation as specified above |
| ChatService.ScanNewest | backend/services/chat.go:314-320 | the loop returns the newest visible messages, newest first, as specified above |
| ChatService.SelectConversations | backend/services/chat.go:502-514 | the nested loops select the first `limit` conversations of the user as specified above |
| ChatService.InvariantAfterAdd | backend/services/chat.go:84-86 | storing a new conversation under the next id with an empty message list keeps the store consistent |
| ChatService.InvariantAfterStore | backend/services/chat.go:217-222 | storing a new message and making it its conversation's last message keeps the store consistent |
| ChatService.InvariantAfterMarking | backend/services/chat.go:357-360 | changing messages without changing their ids or conversations keeps the store consistent |
| ChatService.MockChatService.Conversations | backend/services/chat.go:22 | one conversation per entry of the conversation list |
| ChatService.MockChatService.constructor | backend/services/chat.go:28-35 | every map and the conversation list start empty, and no event has been sent |
| ChatService.MockChatService.Add | backend/services/chat.go:84-86 | the new conversation is stored under its id, appended to the list and given an empty message list |
| ChatService.MockChatService.CreatePersonalConversation | backend/services/chat.go:62-89 | an existing personal pair is returned unchanged with the store untouched; otherwise a new conversation of exactly the two users is stored; afterwards the same search finds the returned conversation |
| ChatService.MockChatService.CreateGroupConversation | backend/services/chat.go:117-152 | more than 20 given participants is an error that changes nothing; otherwise a new group with the creator as only admin and as member, so at most 21 members |
| ChatService.MockChatService.Store | backend/services/chat.go:217-222 | the message is stored under its id, appended to its conversation's list, and becomes that conversation's last message with the update time |
| ChatService.MockChatService.Notify | backend/services/chat.go:225-232 | a new-message event for every participant but the sender, in participant order |
| ChatService.MockChatService.SendMessage | backend/services/chat.go:171-235 | over 2000 bytes, an unknown conversation and a non-participant sender are errors that change nothing; every other call succeeds, and then the message, read by its sender, is stored, becomes the last message, and the other participants are notified |
| ChatService.MockChatService.GetMessages | backend/services/chat.go:300-323 | the limit capped at 100; an empty slice for an unknown conversation; for a known one the newest visible messages up to the limit, newest first, as a nil slice exactly when there are none |
| ChatService.MockChatService.MarkMessageAsRead | backend/services/chat.go:348-363 | an unknown id is an error that changes nothing; otherwise only that message changes, the reader added once |
| ChatService.MockChatService.BatchMarkMessagesAsRead | backend/services/chat.go:377-423 | every listed stored message is marked read by the user, and each distinct sender other than the reader gets exactly one receipt |
| ChatService.MockChatService.MarkEach | backend/services/chat.go:386-402 | the first loop marks the listed messages and collects exactly their senders other than the reader |
| ChatService.MockChatService.SendReceipts | backend/services/chat.go:411-420 | the last loop sends one receipt to each collected sender, none twice |
| ChatService.MockChatService.GetConversations | backend/services/chat.go:490-522 | the first `limit` (adjusted) conversations of the user in creation order, ordered by latest update first |
| UserService.IndicesHoldSameUsers | backend/services/user.go:100-101 | the email index and the id index hold the same users, and an email and an id lead to the same record exactly when it carries both |
| UserService.InvariantAfterCreate | backend/services/user.go:100-101 | storing a record under a fresh id and a fresh email keeps the two indices in step |
| UserService.MockUserService.constructor | backend/services/user.go:37-63 | the store holds the demo account only, offline, with the hash of its password (empty when hashing failed) |
| UserService.MockUserService.GetUserByEmail | backend/services/user.go:135-143 | "not found" exactly for an unknown email; otherwise the record with that email, the one the id index holds |
| UserService.MockUserService.GetUserByID | backend/services/user.go:155-163 | "not found" exactly for an unknown id; otherwise the record with that id, the one the email index leads to |
| UserService.MockUserService.CreateUser | backend/services/user.go:74-104 | a taken email or a hashing error changes nothing; otherwise a new offline user with the hashed password is stored under both indices and found by its email and its id |
| UserService.MockUserService.UpdateUser | backend/services/user.go:175-188 | an unknown id is "not found" and changes nothing; otherwise only the name, avatar and update time change, seen through both indices |
| UserService.MockUserService.UpdateUserStatus | backend/services/user.go:207-220 | an unknown id is "not found" and changes nothing; otherwise only the status and update time change; any status string is accepted |
| Models.AdminPositionsExact | backend/models/conversation.go:47-54 | the admin positions are in range, strictly ascending, and exactly those of the participants whose id is an admin id |
| Models.AdminsOfAtPositions | backend/models/conversation.go:47-54 | the k-th admin entry is the public view of the participant at the k-th admin position |
| Models.AdminsOfExact | backend/models/conversation.go:45-55 | the admin list is exactly the participants whose id is an admin id, each once, in participant order |
| Models.AdminsOfNone | backend/models/conversation.go:46 | without admin ids the admin list is empty |
| Models.AdminsOfSameIds | backend/models/conversation.go:48-49 | only the set of admin ids matters: repeating or reordering them gives the same admin list |
| Models.ToResponse | backend/models/conversation.go:39-67 | the participants' public views in order, the admin views as above, the identifying fields, the creation time and the last message copied |

## Left out

- Rendering, DOM scrolling, React refs, effects and closures are left out. Asynchronous React state updates are treated as taking effect at once.
- Real timers and sockets are not modelled. A scheduled timer is a deadline in the state, and the model's event methods fire it exactly at that deadline.
- The late `onclose` of a socket that has already been replaced is not modelled. Socket events always concern the current socket.
- JavaScript numbers are modelled as integers, except delays, which are exact reals. Floating-point rounding is not modelled.
- `Math.random` and `time.Now()` are parameters.
- Locale-dependent output is not modelled. This covers the locale branch of the relative-time formatter in `format.js` and the conversion of a timestamp to local calendar fields; `DateUtils` takes those fields as input.
- `toUpperCase` and `toLowerCase` are modelled for ASCII letters only.
- The chat reducers for creating conversations, `getConversations`, `updateMessage`, participant changes and `updateConversation` are not part of this model.
- The unused `prepend` parameter of `mergeMessages` is not modelled.
- The automatic `markAllAsRead` of `useReadMessages.js:106-110`, 500 ms after the active conversation changes, is not modelled. The caller invokes `MarkAllAsRead` directly.
- The unmount-only effect of `useReadMessages.js:19-25` is not modelled separately from `Cleanup`.
- Virtualized.GetVisibleMessages requires a positive `itemHeight`; the source divides by it without a check.
- Virtualized.TotalHeight is stated only through `VisibleRowsInsideTotalHeight`.
- Validation.ValidateFile covers only the default options; custom size limits and type lists are not modelled.
- Validation.ValidateGroupParticipants compares entries by value. JavaScript `Set` identity for object entries is not modelled.
- The header rules cover only string tokens. How a non-string token renders inside the `Bearer` header is not modelled.
- The `createError` wrappers, `logError` and the `AppError` time stamp of `error.js` are not modelled.
- `setInitialized` stores its payload as a boolean.
- These formatters are not part of this model: `formatFileSize`, `formatCurrency`, `formatNumber`, `formatPercentage`, `formatFullDate`, `dateUtils.formatDate` and `format.formatDate`.
- These storage operations are not modelled: `getStorageQuota`, `subscribeToStorage`, `isStorageAvailable` and `getStorageSize`. The browser's key order is not modelled either, so `getAllItems` builds a map.
- JSON serialisation is modelled at the top level only. An `undefined` value is stored as the text "undefined"; nested `undefined` values are not modelled.
- Storage.BrowserStorage.BackupThenRestore: restoring a backup rebuilds the store exactly only when no entry was written from `undefined`. Such entries come back as `null`.
- ChatUtils.SortMessagesByDate: the stability of the sort is built into its definition but not stated as a contract.
- Every MongoDB branch of `chat.go` and `user.go` is left out, together with the connection handling around it.
- Password hashing with bcrypt is outside the model. Its outcome is a `Result` parameter.
- ChatService.MockChatService.BatchMarkMessagesAsRead: the conversion of ids to hex strings in read receipts is not modelled, and the receipts carry the ids themselves. The order of the receipts follows the walk of the sender map and is left open.
- ChatService.MockChatService.GetConversations: `sort.Slice` is not stable, so the order among conversations updated at the same instant is left open.
- Returned records are values, so the aliasing of returned pointers is not modelled. In Go, a caller may later see store updates through such a pointer.
- Models.ToResponse takes only non-nil participants; nil pointers are not modelled.
- The field-copying `ToResponse` of `models/user.go` and `models/message.go` is a plain function without its own contract.
- The WebSocket hub, goroutines, mutexes and the HTTP handlers of the backend are not part of this model.
- Helpers.TruncateText: `length` and `slice` count characters, which agree with JavaScript's UTF-16 code units only for text within the Basic Multilingual Plane (stated as a contract). A string cannot hold half of a surrogate pair, so a cut through one is not modelled.
- Storage.BrowserStorage.SetItem: a write the browser refuses, such as one over the storage quota, is caught and only logged by the source, leaving the store as it was. The model takes every write as accepted.
- FriendSlice.FriendFromRequest: every sent request carries a recipient. A request without one makes the source reducer throw, which is not modelled.
