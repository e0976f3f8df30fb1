# ConvoHub client core in Dafny

ConvoHub's web client is a React single-page chat application. Most of it
renders JSX and sends HTTP requests. This project models the logic between
those requests. Time, random ids and server responses are taken as inputs.
The model covers:

- the realtime session (`SocketService`). It holds at most one socket.io
  socket and an `isConnected` flag. Every outbound event is gated on that
  flag. Listeners are registered and removed on the socket.
- the chat window:
  - reconciliation of an incoming `new_message` with optimistic drafts;
  - the optimistic send;
  - the typing-indicator set;
  - the header's online status.
- the chat list:
  - member presence patched by `user_online` / `user_offline`;
  - the name search;
  - the avatar initials;
  - the profile-picture URL rewrite;
  - the draggable panel width.
- the notifications hook. Its list, unread count, loading flag and error
  change after each request's outcome.
- the conversion of the push service's VAPID key from base64url to bytes.
  Decoding follows section 4 of RFC 4648, and the alphabet change follows
  section 5 of RFC 4648.
- the one-time-code screen: six slots, typed and pasted input filtered by
  `isNaN`, a 60-second countdown gating resend, and the submit guard.
- the guard chains of the password-reset and login forms.
- the relative "last seen" text and the avatar letters of the public
  profile page.

There is one module per source file. Three support modules model the
JavaScript built-ins the code relies on:

- `Wrappers` holds `Option`.
- `JsText` holds `trim`, `split`, `includes`, `toUpperCase`,
  `toLowerCase` and `slice` on strings.
- `JsNumber` holds `Number(string)` under the ECMAScript StringNumericLiteral
  grammar, `isNaN` and the truthiness of numbers.

Code that mutates state is modelled as classes with `modifies` frames:

- the socket service and the abstract client socket;
- the page components (each is a class whose fields are its React state);
- the notifications hook and the forms.

The updaters they apply are pure functions. The lemmas about the updaters
carry most of the proofs.

## Model

| member | source | states |
|---|---|---|
| Socket.SocketService.constructor | src/utils/socket.js:10-13 | A new service has no socket and is not connected. |
| Socket.ClientSocket.constructor | src/utils/socket.js:20-31 | A socket carries the stored token and the user id it was created with. It starts unconnected, with nothing emitted and no listeners. |
| Socket.SocketService.Connect | src/utils/socket.js:15-49 | With a socket and the flag set, `connect` returns the existing socket and creates nothing. Otherwise it installs a fresh socket with that token and user id and the three connection listeners. `isConnected` is never changed. |
| Socket.SocketService.ConnectEvent | src/utils/socket.js:33-36 | The socket becomes connected. The service's flag is set when its listener is on the firing socket and the service holds a socket. With no socket the listener throws at `this.socket.id` before setting the flag, so the flag stays as it was. |
| Socket.SocketService.DisconnectEvent | src/utils/socket.js:38-41 | The `disconnect` event clears `isConnected` when the service's listener is on the firing socket. |
| Socket.SocketService.ConnectErrorEvent | src/utils/socket.js:43-46 | The `connect_error` event clears `isConnected` when the service's listener is on the firing socket. |
| Socket.SocketService.Disconnect | src/utils/socket.js:51-57 | With a socket, `disconnect` closes it, sets `socket` to null and clears the flag. Without one it changes nothing. |
| Socket.SocketService.Emit | src/utils/socket.js:60-135 | The shared gate: exactly one event is appended to the current socket's log when there is a socket and the service is connected. Otherwise nothing is emitted or queued, and no other state changes. |
| Socket.SocketService.JoinChat | src/utils/socket.js:60-65 | `join_chat {chatId}` goes through the gate. |
| Socket.SocketService.LeaveChat | src/utils/socket.js:68-73 | `leave_chat {chatId}` goes through the gate. |
| Socket.SocketService.SendMessage | src/utils/socket.js:76-81 | `send_message` with the message data goes through the gate. |
| Socket.SocketService.SendTyping | src/utils/socket.js:111-115 | `typing {chatId, userId}` goes through the gate. |
| Socket.SocketService.SendStoppedTyping | src/utils/socket.js:117-121 | `stopped_typing {chatId, userId}` goes through the gate. |
| Socket.SocketService.MarkMessageAsRead | src/utils/socket.js:131-135 | `mark_read {messageId, userId}` goes through the gate. |
| Socket.SocketService.On | src/utils/socket.js:84-128 | The shared registration: with a socket, the listener is appended to its list. Without a socket nothing changes. Nothing else ever changes. |
| Socket.SocketService.OnNewMessage | src/utils/socket.js:84-88 | Registers on `new_message` only when a socket exists. |
| Socket.SocketService.OnMessageStatusUpdate | src/utils/socket.js:91-95 | Registers on `message_status_update` only when a socket exists. |
| Socket.SocketService.OnUserTyping | src/utils/socket.js:98-102 | Registers on `user_typing` only when a socket exists. |
| Socket.SocketService.OnUserStoppedTyping | src/utils/socket.js:104-108 | Registers on `user_stopped_typing` only when a socket exists. |
| Socket.SocketService.OnUserOnlineStatus | src/utils/socket.js:124-128 | Registers on `user_online_status` only when a socket exists. |
| Socket.RemoveFirst | src/utils/socket.js:138-142 | With no registration of the listener the list is unchanged. Otherwise exactly the first copy is taken out: what precedes it holds no copy, and everything else keeps its order. |
| Socket.SocketService.Off | src/utils/socket.js:138-142 | `off` removes one registration of that callback for that event. Without a socket nothing changes. |
| Socket.RemoveEvent | src/utils/socket.js:145-149 | Exactly the listeners of other events remain, each with as many copies as before. |
| Socket.RemoveEventAppend | src/utils/socket.js:145-149 | The removal distributes over concatenation, so the kept listeners stay in their order. |
| Socket.SocketService.RemoveAllListeners | src/utils/socket.js:145-149 | `removeAllListeners(event)` drops every listener of that event. Without a socket nothing changes. |
| Socket.SocketService.GetSocket | src/utils/socket.js:151-153 | Returns the current socket or null. |
| Socket.SocketService.IsSocketConnected | src/utils/socket.js:155-157 | True exactly when the service's flag is set and a socket exists that reports itself connected. |
| Socket.JoinRightAfterFirstConnect | src/pages/ChatWindow.js:222-225 | On a fresh service, a `join_chat` issued right after `connect` is dropped, because the `connect` event has not fired yet. |
| ChatWindow.DropSuperseded | src/pages/ChatWindow.js:236-248 | Nothing is added. An entry stays exactly when the incoming message does not supersede it, and every optimistic entry with the same sender, text and chat is gone. |
| ChatWindow.DropSupersededCounts | src/pages/ChatWindow.js:236-248 | Every entry the incoming message does not supersede keeps its multiplicity, and every superseded one is gone. |
| ChatWindow.ApplyIncoming | src/pages/ChatWindow.js:230-251 | When a confirmed message with the incoming id is listed, the list is unchanged. Otherwise the incoming message is last, and before it stand exactly the entries it does not supersede. |
| ChatWindow.DropSupersededAppend | src/pages/ChatWindow.js:236-248 | The filter distributes over concatenation. |
| ChatWindow.DropSupersededNone | src/pages/ChatWindow.js:236-248 | A list with nothing to supersede passes unchanged. |
| ChatWindow.KeepsOthersInPlace | src/pages/ChatWindow.js:238-247 | An entry that is not superseded keeps its place between what is kept before it and what is kept after it. Nothing is reordered. |
| ChatWindow.ConfirmedSurvive | src/pages/ChatWindow.js:236-248 | A confirmed message is never removed. |
| ChatWindow.ApplyIncomingIdempotent | src/pages/ChatWindow.js:232-250 | Delivering the same server message twice gives the list one delivery gives. |
| ChatWindow.OneEchoRemovesIdenticalDrafts | src/pages/ChatWindow.js:238-247 | Matching is by content alone, so one echo removes two identical drafts. |
| ChatWindow.OptimisticMessage | src/pages/ChatWindow.js:335-348 | The draft's id is the temporary id of the clock reading and the random value. It is optimistic with the single status `sending`. It carries the payload's chat id, sender id, text and type, the creation time, and the signed-in user's names and picture under the payload's sender id. |
| ChatWindow.NaNChatDraftStays | src/pages/ChatWindow.js:244 | A draft whose chat id is NaN matches no incoming message under `===`, so it is never replaced and stays in the list. |
| ChatWindow.TempIdTextInjective | src/pages/ChatWindow.js:335 | Two `temp_<now>_<random>` texts are equal exactly when their clock values and their random parts are equal. |
| ChatWindow.EchoReplacesOptimistic | src/pages/ChatWindow.js:230-251 | When nothing else matches, the server's echo takes the place of the draft. |
| ChatWindow.AddTyping | src/pages/ChatWindow.js:260-268 | One's own events and users already listed change nothing. Otherwise the entry of the user and name is appended after the unchanged old list. Unique user ids stay unique, and no other user's presence in the list changes. |
| ChatWindow.RemoveTyping | src/pages/ChatWindow.js:271-273 | Exactly the entries of other users remain, and the user is no longer typing. |
| ChatWindow.RemoveTypingAppend | src/pages/ChatWindow.js:272 | The filter distributes over concatenation. |
| ChatWindow.RemoveTypingKeepsOthers | src/pages/ChatWindow.js:272 | Every other user's entry keeps its place. |
| ChatWindow.RemoveTypingUnique | src/pages/ChatWindow.js:272 | Removal keeps user ids unique. |
| ChatWindow.FirstOther | src/pages/ChatWindow.js:134-139 | The member found is a member other than the signed-in user. There is none exactly when every member is that user. |
| ChatWindow.FirstOtherIsFirst | src/pages/ChatWindow.js:136 | The member found is the first member whose id is not the signed-in user's: every member before it is that user. |
| ChatWindow.HeaderFor | src/pages/ChatWindow.js:131-179 | For a private chat, `otherUserId` is the first other member's id. The name is that member's `full_name`, else its `username`, else ''. When that id is truthy, online and `last_seen` are the member's `is_online` and truthy `last_seen`; otherwise offline with no `last_seen`. A group shows its `chat_name` and no presence. Any other type shows '' and no presence. `otherUserId` is never the user's own id. |
| ChatWindow.ApplyOnlineStatus | src/pages/ChatWindow.js:276-284 | An event for the captured other user overwrites the online flag and last-seen time. Any other event changes nothing. Name, type and other user stay. |
| ChatWindow.OnlineStatusLastWins | src/pages/ChatWindow.js:276-284 | Of two matching events, the later one alone decides. |
| ChatWindow.StatusIgnoredAfterMountCapture | src/pages/ChatWindow.js:220-299 | With the header captured at mount, before `otherUserId` is set, every `user_online_status` event is ignored. |
| ChatWindow.ChatWindowPage.constructor | src/pages/ChatWindow.js:29-47 | Empty text, messages and typing set, and the initial header. |
| ChatWindow.ChatWindowPage.SubscribeEffect | src/pages/ChatWindow.js:220-289 | It connects and issues `join_chat`, which is emitted only when the service is already flagged connected. It registers the four handlers after the service's listeners, and the handlers capture the current `otherUserId`. The flag is unchanged. A reused socket keeps its connection state, a new one is not connected, and a socket that is replaced is left untouched. |
| ChatWindow.ChatWindowPage.RegisterHandlers | src/pages/ChatWindow.js:286-289 | The four handlers are appended, in order, after the socket's existing listeners. The socket, both connection flags and what was emitted do not change. |
| ChatWindow.ChatWindowPage.ChatLoaded | src/pages/ChatWindow.js:169-179 | The header becomes `HeaderFor` of the fetched chat. |
| ChatWindow.ChatWindowPage.MessagesLoaded | src/pages/ChatWindow.js:189 | The list becomes `data.messages`, or empty when it is missing. |
| ChatWindow.ChatWindowPage.HandleNewMessage | src/pages/ChatWindow.js:228-251 | The list becomes the reconciliation of the old list with the message. |
| ChatWindow.ChatWindowPage.HandleUserTyping | src/pages/ChatWindow.js:260-268 | The typing set becomes `AddTyping` of the old set. |
| ChatWindow.ChatWindowPage.HandleUserStoppedTyping | src/pages/ChatWindow.js:271-273 | The typing set becomes `RemoveTyping` of the old set. |
| ChatWindow.ChatWindowPage.HandleUserOnlineStatus | src/pages/ChatWindow.js:276-284 | The header becomes `ApplyOnlineStatus` with the captured id. |
| ChatWindow.ChatWindowPage.SetMessageText | src/pages/ChatWindow.js:310-351 | The input's text is set. |
| ChatWindow.ChatWindowPage.HandleSendMessage | src/pages/ChatWindow.js:310-351 | Text that trims to nothing (whitespace only, by `JsText.TrimSpec`) changes nothing and emits nothing. Otherwise the following happens. The input is cleared and a pending stop-typing timeout is cancelled. `stopped_typing` and then `send_message` with the trimmed text go through the gate. Exactly one optimistic entry is appended. In both cases the socket, its listeners and both connection flags are unchanged. |
| ChatWindow.ChatWindowPage.HandleTyping | src/pages/ChatWindow.js:354-368 | Only while `isSocketConnected()` holds: `typing` is emitted and the stop-typing timeout is (re)started. Otherwise nothing changes. The socket, its listeners and both connection flags are unchanged. |
| ChatWindow.ChatWindowPage.StopTypingTimeout | src/pages/ChatWindow.js:365-367 | The timeout emits `stopped_typing` through the gate. |
| ChatWindow.ChatWindowPage.Unsubscribe | src/pages/ChatWindow.js:292-298 | `leave_chat` goes through the gate, and the first registration of each of the four handlers is removed. The socket and both connection flags are unchanged. |
| ChatHome.FirstOtherIndex | src/pages/ChatHome.js:250 | `find` stops at the first member that is not the user. |
| ChatHome.ApplyPresence | src/pages/ChatHome.js:245-283 | Length and order are kept. Chats that are not private, have no members, or whose first other member is not the user are returned unchanged. In a targeted chat exactly that user's members get the new online flag, and for `user_offline` also `lastSeen`. |
| ChatHome.FirstOtherStable | src/pages/ChatHome.js:250 | Patching keeps member ids, so the first other member does not move. |
| ChatHome.TargetsStable | src/pages/ChatHome.js:249-251 | A presence patch never changes which chats an event targets. |
| ChatHome.OwnIdNoOp | src/pages/ChatHome.js:248-251 | An event carrying the user's own id changes nothing. |
| ChatHome.PresenceIdempotent | src/pages/ChatHome.js:255 | Repeating an event equals applying it once. |
| ChatHome.OfflineOverrides | src/pages/ChatHome.js:275 | `user_offline` after any event equals `user_offline` alone. |
| ChatHome.OnlineLastEventWins | src/pages/ChatHome.js:255 | Online flags are last-event-wins. |
| ChatHome.FilterChats | src/pages/ChatHome.js:184-186 | Exactly the chats whose lower-cased name (missing → '') contains the lower-cased query are kept. |
| ChatHome.FilterChatsAppend | src/pages/ChatHome.js:184-186 | Kept chats stay in their order. |
| ChatHome.EmptyQueryKeepsAll | src/pages/ChatHome.js:184-186 | An empty query keeps every chat. |
| ChatHome.GetInitialsSpec | src/pages/ChatHome.js:602-609 | A missing or empty name gives the speech balloon U+1F4AC (the corrected fallback, see Findings). A trimmed name containing a space gives the upper-cased first letters of its first and last word. Any other name gives its first two characters, untrimmed, upper-cased. |
| ChatHome.GetInitials | src/pages/ChatHome.js:602-609 | With the corrected fallback, at most two characters. |
| ChatHome.GetInitialsAsWritten | src/pages/ChatHome.js:602-609 | With the fallback literal as written, the result is at most two characters or the four characters U+00F0 U+0178 U+2019 U+00AC. A filled name gives the same as `GetInitials`. |
| ChatHome.MissingNameMojibake | src/pages/ChatHome.js:603 | For a missing name the literal as written is four characters long and differs from the one-character speech balloon. |
| ChatHome.MatchesQuery | src/pages/ChatHome.js:185 | The lower-cased name (missing → '') contains the lower-cased query. An empty query matches every chat. |
| ChatHome.RewriteProfilePicSpec | src/pages/ChatHome.js:63-67 | The URL is the profiles prefix followed by the last `split` piece. That piece holds no `/uploads/`. It is the whole path without one, and otherwise follows an occurrence of `/uploads/`. |
| ChatHome.RewriteProfilePic | src/pages/ChatHome.js:63-67 | A falsy picture is kept as it is. |
| ChatHome.OverlappingUploads | src/pages/ChatHome.js:65 | `"/uploads/uploads/"` keeps `"uploads/"`, not the empty text after the later occurrence. |
| ChatHome.ClampWidth | src/pages/ChatHome.js:321 | The width is always in [320, 650]. In range it is kept, below it is 320, above it is 650. |
| ChatHome.ChatHomePage.constructor | src/pages/ChatHome.js:34-42 | The width is the stored one, or 360 when nothing is stored. |
| ChatHome.ChatHomePage.HandleUserOnline | src/pages/ChatHome.js:245-263 | Chats become `ApplyPresence` with online. |
| ChatHome.ChatHomePage.HandleUserOffline | src/pages/ChatHome.js:265-283 | Chats become `ApplyPresence` with offline and the event's `lastSeen`. |
| ChatHome.ChatHomePage.SubscribeAsWritten | src/pages/ChatHome.js:214-297 | The effect as written. Without a truthy user id, the service and its socket are untouched. Otherwise it connects and registers `new_message`, and then throws at `onUserOnline`. The flag is unchanged. A reused socket keeps its log and connection state, a new one has an empty log and is not connected, and a replaced socket is left untouched. |
| ChatHome.PresenceNeverRegistered | src/pages/ChatHome.js:285-287 | On a fresh service the as-written effect leaves no `user_online` or `user_offline` listener. |
| ChatHome.ChatHomePage.Subscribe | src/pages/ChatHome.js:214-297 | The corrected effect registers `new_message`, `user_online` and `user_offline` after the service's listeners. Without a truthy user id, the service and its socket are untouched. The flag, a reused socket's log and connection state, and a replaced socket are kept as in `SubscribeAsWritten`. |
| ChatHome.ChatHomePage.MouseDown | src/pages/ChatHome.js:301-311 | A press within 5 pixels of the divider starts a drag. Without a container nothing changes. |
| ChatHome.ChatHomePage.MouseMove | src/pages/ChatHome.js:313-329 | While dragging, the width is the clamped pointer offset, always within [320, 650], and it is what gets stored. Otherwise nothing changes. |
| ChatHome.ChatHomePage.MouseUp | src/pages/ChatHome.js:331-333 | The drag ends. |
| Notifications.MarkRead | src/hooks/useFetchNotifications.js:128-134 | Only entries with that id become read at that time. Length, order and other entries are unchanged. |
| Notifications.MarkAllRead | src/hooks/useFetchNotifications.js:162-164 | Every entry becomes read at that time, in place. |
| Notifications.Delete | src/hooks/useFetchNotifications.js:194-196 | Exactly the entries with other ids remain. |
| Notifications.DeleteAppend | src/hooks/useFetchNotifications.js:194-196 | The filter distributes over concatenation. |
| Notifications.DeleteKeepsOthers | src/hooks/useFetchNotifications.js:194-196 | Every other entry keeps its place. |
| Notifications.MarkAllReadLeavesNoneUnread | src/hooks/useFetchNotifications.js:162-166 | After marking all read, no entry is unread, which matches the count of 0. |
| Notifications.MarkReadUnreadLikeDelete | src/hooks/useFetchNotifications.js:128-134 | Marking one id read leaves as many unread entries as deleting it would. |
| Notifications.DeleteAfterMarkRead | src/hooks/useFetchNotifications.js:128-134 | Deleting an id makes an earlier marking of it irrelevant. |
| Notifications.MarkAllAfterMarkRead | src/hooks/useFetchNotifications.js:162-164 | Marking all read absorbs an earlier single marking. |
| Notifications.SuccessCount | src/hooks/useFetchNotifications.js:228 | The count is at most the number of replies. One reply counts one exactly when it is ok. The count is 0 exactly when no reply is ok. |
| Notifications.SuccessCountAppend | src/hooks/useFetchNotifications.js:228 | The count of two lists of replies together is the sum of their counts. |
| Notifications.SuccessCountAll | src/hooks/useFetchNotifications.js:228 | Every reply counts exactly when all are `ok`. |
| Notifications.NotificationsHook.constructor | src/hooks/useFetchNotifications.js:5-8 | Empty list, count 0, not loading, no error. |
| Notifications.NotificationsHook.FetchNotifications | src/hooks/useFetchNotifications.js:10-58 | Without a token nothing changes. Otherwise loading ends false. Ok installs `data.data` or [] and clears the error. Not-ok gives []. A throw gives [] and records the message. |
| Notifications.NotificationsHook.FetchUnreadCount | src/hooks/useFetchNotifications.js:60-108 | Without a token nothing changes. Ok gives `unread_count` or 0. A non-ok reply or a throw gives 0. |
| Notifications.NotificationsHook.MarkAsRead | src/hooks/useFetchNotifications.js:110-142 | A reply that is not ok changes nothing. Ok marks that id read and refetches the count. |
| Notifications.NotificationsHook.MarkAllAsRead | src/hooks/useFetchNotifications.js:144-175 | A reply that is not ok changes nothing. Ok marks all read and sets the count to 0, which equals the unread entries. |
| Notifications.NotificationsHook.DeleteNotification | src/hooks/useFetchNotifications.js:177-203 | A reply that is not ok changes nothing. Ok deletes that id and refetches the count. |
| Notifications.NotificationsHook.ClearAll | src/hooks/useFetchNotifications.js:205-243 | On an empty list it does nothing. Otherwise the list and the count are cleared whatever the deletes returned, and only ok replies are counted. |
| PushKey.PadCount | src/utils/notification.utils.js:224 | The pad count is `(4 − n mod 4) mod 4`, in 0..3, and makes the length a multiple of 4. |
| PushKey.Padded | src/utils/notification.utils.js:224-225 | The padded length is a multiple of 4, and only '=' is added, at the end. |
| PushKey.ToStandard | src/utils/notification.utils.js:225-227 | '-' becomes '+' and '_' becomes '/'. Every other character is kept in place. |
| PushKey.Atob | src/utils/notification.utils.js:229 | A successful decode is a binary string of 3 characters per quantum, minus one per '='. |
| PushKey.AtobEncode | src/utils/notification.utils.js:229 | Decoding undoes the encoding of section 4 of RFC 4648. |
| PushKey.AtobFinalTriple | src/utils/notification.utils.js:229 | A quantum with three '=' is rejected. |
| PushKey.KeyBytes | src/utils/notification.utils.js:223-237 | The output is the char codes of the decoded string, one byte each. |
| PushKey.KeyBytesRoundTrip | src/utils/notification.utils.js:223-237 | Every key encoded in base64url without padding converts back to its bytes. |
| PushKey.ShortQuantumFails | src/utils/notification.utils.js:224-229 | A key of length 1 mod 4 never converts. |
| PushKey.UrlBase64ToUint8Array | src/utils/notification.utils.js:223-237 | The loop fills a fresh array with exactly `KeyBytes(key)`. The helper fails exactly where `KeyBytes` has none. |
| PushKey.KeyStep | src/utils/notification.utils.js:95-112 | A missing or empty key, or a failed conversion, aborts without subscribing. Subscription uses the converted bytes. |
| PushKey.EncodedKeySubscribes | src/utils/notification.utils.js:104-121 | A correctly encoded non-empty key always reaches `subscribe`. |
| Otp.OtpForm.constructor | src/pages/OTPVerification.js:11-17 | Six empty slots, timer 60, resend closed, username or ''. |
| Otp.OtpForm.Tick | src/pages/OTPVerification.js:19-28 | A tick while positive lowers the timer by one. Resend opens exactly at 0. |
| Otp.OtpForm.HandleChange | src/pages/OTPVerification.js:34-39 | A value `isNaN` rejects changes nothing. Otherwise only slot `index` changes, and there are still six slots. |
| Otp.Paste | src/pages/OTPVerification.js:55-63 | The result has six slots. |
| Otp.PasteSlot | src/pages/OTPVerification.js:58-62 | A slot takes pasted character i exactly when `isNaN` accepts it. Slots beyond the pasted text are untouched. |
| Otp.BlankValuesAccepted | src/pages/OTPVerification.js:35 | `isNaN` accepts '' and ' ', so a space is stored as if it were a digit. |
| Otp.PasteSixDigits | src/pages/OTPVerification.js:55-63 | Pasting six digits makes the joined code exactly those digits. |
| Otp.PasteFirstAll | src/pages/OTPVerification.js:58-62 | After i steps of the loop, slots below i agree with the paste and the rest are untouched. |
| Otp.PasteStep | src/pages/OTPVerification.js:59-61 | One turn of the loop writes the character into its slot when `isNaN` is false for it, and changes nothing when it is true. |
| Otp.PasteLoop | src/pages/OTPVerification.js:56-62 | The loop over a copy of the slots yields `Paste`. |
| Otp.OtpForm.HandlePaste | src/pages/OTPVerification.js:53-64 | The slots become the paste of the first six clipboard characters. |
| Otp.Join | src/pages/OTPVerification.js:70 | All-empty slots join to ''. The code starts with the first slot. |
| Otp.JoinFull | src/pages/OTPVerification.js:70-72 | With one character at most per slot, the joined code has six characters exactly when every slot is filled. |
| Otp.OtpForm.Submit | src/pages/OTPVerification.js:68-72 | The request is sent only for a 6-character code and a non-empty username. Otherwise the error is 'Please enter the 6-digit code.'. |
| Otp.OtpForm.Answer | src/pages/OTPVerification.js:84-99 | Ok stores both tokens and goes to /chats. Not-ok shows the body's message or 'OTP verification failed.'. A throw shows the connection error. |
| Otp.OtpForm.HandleResend | src/pages/OTPVerification.js:105-113 | Only when resend is open: timer 60, resend closed, six empty slots. |
| ResetPassword.DeriveUserId | src/pages/ResetPassword.js:11-13 | The navigation state wins, the `uid` parameter is the fallback, and there is no id only when both are missing. A present value goes through `Number`. |
| ResetPassword.DeriveOtpCode | src/pages/ResetPassword.js:14 | An empty or missing code counts as none. |
| ResetPassword.Validate | src/pages/ResetPassword.js:22-43 | The checks run in order: session, then length, then match. Each verdict holds exactly when its check is the first to fail. The request with userId, otpCode and newPassword is made exactly when all pass. |
| ResetPassword.UnreadableUidExpires | src/pages/ResetPassword.js:13-26 | A `uid` that reads as NaN expires the session. |
| ResetPassword.DecimalUidAccepted | src/pages/ResetPassword.js:11-43 | A positive decimal `uid` with a code and matching passwords sends exactly that id. |
| ResetPassword.ZeroIdExpires | src/pages/ResetPassword.js:13-26 | An id of 0 from either source expires the session. |
| ResetPassword.Outcome | src/pages/ResetPassword.js:46-57 | Ok gives a success toast with the server's `message`, else 'Password reset successfully. You can now login.', and goes to /login. Anything else gives a failure toast and goes to /forgot-password. A request that threw shows 'Unable to reset password. Try again later.'. |
| ResetPassword.FailureTextPrecedence | src/pages/ResetPassword.js:50 | A failure shows `error`, else `message`, else 'Failed to reset password', and never an empty text. |
| ResetPassword.ResetPasswordPage.constructor | src/pages/ResetPassword.js:11-18 | The id and code are derived, the fields are empty and nothing is loading. |
| ResetPassword.ResetPasswordPage.SetPassword | src/pages/ResetPassword.js:70 | Sets the password. |
| ResetPassword.ResetPasswordPage.SetConfirm | src/pages/ResetPassword.js:73 | Sets the confirmation. |
| ResetPassword.ResetPasswordPage.Submit | src/pages/ResetPassword.js:20-43 | An expired session shows its toast and leaves for /forgot-password. A bad password shows its toast and stays. Only an accepted form starts loading and sends the request. |
| ResetPassword.ResetPasswordPage.Answer | src/pages/ResetPassword.js:45-59 | The outcome's toast and route are applied, and loading ends. |
| Login.ValidateForm | src/pages/Login.js:28-33 | 'Username is required' exactly when the username is empty, and 'Password is required' exactly when the password is empty, independently. There is never an `api` entry. |
| Login.NoErrorsIffFilled | src/pages/Login.js:39 | There are no errors exactly when both fields are filled. |
| Login.ClearError | src/pages/Login.js:23-25 | The edited field's error ends up falsy. Keys and all other errors are kept. |
| Login.ClearErrorIdempotent | src/pages/Login.js:23-25 | An error already cleared is left as it is. |
| Login.LoginPage.constructor | src/pages/Login.js:11-15 | Empty fields, no errors. |
| Login.LoginPage.HandleChange | src/pages/Login.js:17-26 | Only the named field changes, and only its set error is cleared. |
| Login.LoginPage.Submit | src/pages/Login.js:35-69 | The request is sent only with no validation errors. Otherwise the errors become exactly those errors. |
| Login.LoginPage.Answer | src/pages/Login.js:52-65 | Ok stores the token and goes to /verify-otp with the username. Not-ok sets `api` to the message or 'Login failed. Please try again.'. A throw sets the connection error. |
| UserProfile.ElapsedSeconds | src/pages/UserProfile.js:51 | The elapsed seconds are the floor of the millisecond difference over 1000, negative differences included. |
| UserProfile.FormatLastSeen | src/pages/UserProfile.js:47-60 | The input comes back unchanged exactly when it does not parse. A minute count is 1..59, an hour count 1..23. The locale date is shown only for a timestamp a day or more in the past. |
| UserProfile.FormatLastSeenSpec | src/pages/UserProfile.js:47-60 | An unparseable input comes back unchanged. Under a minute (future times included) gives 'a moment ago'. Under an hour gives the whole minutes, 1..59. Under a day gives the whole hours, 1..23. A day or more gives the locale date. The buckets are disjoint and exhaustive. |
| UserProfile.LaterNeverMoreRecent | src/pages/UserProfile.js:51-56 | Seen later, a timestamp never reads as more recent. |
| UserProfile.Render | src/pages/UserProfile.js:53-54 | 'a moment ago' and the count texts end in ' ago'. An unparseable input is shown as it is, and a date in locale format. |
| UserProfile.RenderCountReadsBack | src/pages/UserProfile.js:53-54 | The count text starts with the count's digits, which read back as the count, and takes an 's' exactly when the count exceeds 1. |
| UserProfile.AvatarInitials | src/pages/UserProfile.js:84 | At most two characters. |
| UserProfile.AvatarInitialsSpec | src/pages/UserProfile.js:84 | The first two characters of `full_name`, else of `username`, upper-cased. They are empty only when both are missing or empty. |
| JsNumber.SingleCharIsNaN | src/pages/OTPVerification.js:59 | `isNaN` of one character holds exactly for a character that is neither a digit nor whitespace. |
| JsNumber.IsNaNIsNumberNaN | src/pages/OTPVerification.js:35 | `isNaN` holds exactly when `Number` of the text gives NaN. |
| JsNumber.DecimalRoundTrip | src/pages/ResetPassword.js:13 | `Number` of a decimal rendering gives the number back. |
| JsText.TrimSpec | src/pages/ChatWindow.js:312 | `trim` removes exactly the leading and trailing whitespace. |
| JsText.TrimInfix | src/pages/ChatWindow.js:312 | `trim` keeps an infix of the text, with only whitespace before it and after it. |
| JsText.TrimBlank | src/pages/ChatWindow.js:312 | `trim` gives the empty text exactly when the text is whitespace only. |
| JsText.LastPieceStartSpec | src/pages/ChatHome.js:65 | The last piece starts at 0 exactly when the separator does not occur. Otherwise it starts right after an occurrence, and no occurrence follows. |
| JsText.LastPieceSpec | src/pages/ChatHome.js:65 | `split(sep).pop()` is a suffix with no separator that is the whole text or follows a separator. |

## Left out

- HTTP requests, the 401 refresh-and-retry branches and JSON parsing are not modelled. Each request's outcome is an input: ok with its body, not ok, or a throw.
- `localStorage`, `Date.now`, `Date.parse`, `Math.random` and `toLocaleString` are parameters or markers. `Date.parse` becomes an optional timestamp, and `toLocaleString` a `LocaleDate` result or a text parameter.
- Timers are not modelled as time passing. The countdown interval is an explicit `Tick`, and the typing timeout an explicit `StopTypingTimeout`. The delayed navigations of the reset page are recorded as their target route.
- socket.io internals (transports, reconnection, the handshake) are not modelled. Connection events are explicit operations. `Off` is assumed to remove the first matching registration, as the library's emitter does. The library itself is not part of this model.
- React rendering, routing, focus handling, toasts' lifetimes and asynchronous interleaving are not modelled. Each handler runs to completion on the state it reads.
- Browser push APIs, service workers and app badges are not modelled. Only the key conversion and the decision to subscribe are.
- Otp.OtpForm.Submit: lengths are counted in code points, while JavaScript counts UTF-16 units. The two differ only for characters outside the Basic Multilingual Plane.
- ResetPassword.Validate: the password length is counted in code points, not UTF-16 units, for the same reason.
- ChatHome.GetInitials: characters are code points, while `words[0][0]`, `words[words.length - 1][0]` and `substring(0, 2)` take UTF-16 units. For a word that starts outside the Basic Multilingual Plane the source takes a lone surrogate half, and the model takes the whole character.
- ChatHome.GetInitials: returns the speech balloon U+1F4AC for a missing name, not the four-character literal the source file holds (see Findings). The literal as written is `ChatHome.GetInitialsAsWritten`. The same literal in the group avatar at src/pages/ChatHome.js:634 is rendering and is not modelled.
- ChatHome.GetInitialsSpec: states the initials in code points, for the same reason as `ChatHome.GetInitials`.
- UserProfile.AvatarInitials: `slice(0, 2)` takes two UTF-16 units, and the model takes two code points. They differ when the name starts with a character outside the Basic Multilingual Plane.
- UserProfile.AvatarInitialsSpec: states the initials in code points, for the same reason.
- Otp.OtpForm.HandlePaste: `slice(0, 6)` and `pastedData[i]` index UTF-16 units, while the model indexes code points. A pasted character outside the Basic Multilingual Plane takes two slots in the source and one in the model, so the later characters land one slot further on in the source.
- Otp.Paste: indexes code points, for the same reason as `Otp.OtpForm.HandlePaste`.
- ChatWindow.ChatWindowPage.constructor: `parseInt(chatId)` is an input, either an integer or NaN. The parsing of the route text itself is not modelled.
- JsText.Upper: `toUpperCase` and `toLowerCase` are modelled on ASCII letters only. Other characters are kept.
- JsNumber.SingleCharIsNaN: `Number` is modelled on exact reals. Rounding to doubles and overflow to Infinity are not modelled.
- PushKey.Atob: `atob` is modelled as strict decoding of a padded string by section 4 of RFC 4648. The whitespace stripping and forgiving padding of the WHATWG algorithm are not modelled, and leftover bits are not checked.
- ChatHome.ChatHomePage.MouseMove: pixel positions are integers rather than floating point. `parseInt` of the stored width is an input. Resizing is only enabled when the window is at least 900 pixels wide, and that check is left out.
- ChatWindow.HeaderFor: the profile fetch and the group member list it triggers are left out. Only the header fields are modelled.
- ChatWindow.ChatWindowPage.SubscribeEffect: `connect` is given `Some(userId)`, the user id read from storage. A missing stored user is left out.
- `handleKeyDown` focus moves, file uploads, message actions and the forgot-password page are out of scope. They do not change the state modelled here.

## Findings

| source | as written | input that shows it | evidently intended | confidence | as-written member | corrected member |
|---|---|---|---|---|---|---|
| src/pages/ChatHome.js:285-287 | The socket effect calls `socketService.onUserOnline(...)` and `socketService.onUserOffline(...)`. `SocketService` (src/utils/socket.js) defines neither, so the call throws a TypeError after `new_message` is registered. The presence handlers are never attached, and no cleanup is returned. | Any truthy user id, on any service. | Register the two handlers on `user_online` and `user_offline`, so that presence updates reach the chat list. | high; not executed | ChatHome.ChatHomePage.SubscribeAsWritten, ChatHome.PresenceNeverRegistered | ChatHome.ChatHomePage.Subscribe |
| src/pages/ChatHome.js:603 | The fallback of `getInitials` is the string 'ðŸ’¬': the UTF-8 bytes of U+1F4AC read back as Windows-1252, four characters U+00F0 U+0178 U+2019 U+00AC. | `getInitials(undefined)` or `getInitials('')`. | The speech balloon U+1F4AC, which keeps the avatar text within two characters like every other result. | high; not executed | ChatHome.GetInitialsAsWritten, ChatHome.MissingNameMojibake | ChatHome.GetInitials |
