/** The chat window of src/pages/ChatWindow.js: the message list with its
    optimistic sends and their reconciliation with `new_message` events, the
    typing indicator set, and the header's presence of the other member.

    The list updaters are functions; the component, whose handlers change its
    state and talk to the socket service, is the class `ChatWindowPage`. */
module ChatWindow {
  import opened Wrappers
  import opened JsText
  import opened JsNumber
  import Socket

  /** A message id: an integer the server assigned, or the client's
      `temp_${now}_${random}` string for an optimistic entry, kept as its
      two parts (`TempIdText` writes it out). JavaScript's `===` on two ids
      is equality of these values: two temporary ids have the same text
      exactly when they have the same parts (`TempIdTextInjective`). */
  datatype MessageId = ServerId(n: int) | TempId(now: nat, random: string)

  datatype DeliveryStatus = Sending | Sent | Delivered | Read

  /** The sender record carried by a message. */
  datatype Sender = Sender(userId: int, username: Option<string>, fullName: Option<string>, profilePic: Option<string>)

  datatype Message = Message(
    id: MessageId,
    chatId: Socket.ChatNumber,
    senderId: int,
    text: string,
    messageType: string,
    createdAt: string,
    sender: Option<Sender>,
    status: seq<DeliveryStatus>,
    isOptimistic: bool)

  // ---------------------------------------------------------------------
  // Reconciliation of an incoming `new_message` (lines 230-251)
  // ---------------------------------------------------------------------

  /** The list already holds a confirmed (non-optimistic) message with the
      incoming message's id. */
  predicate HasConfirmedCopy(msgs: seq<Message>, incoming: Message) {
    exists i :: 0 <= i < |msgs| && msgs[i].id == incoming.id && !msgs[i].isOptimistic
  }

  /** An optimistic entry the incoming message replaces: same sender, same
      text and same chat, the chat ids compared with `===`. The temporary id
      plays no part. */
  predicate Superseded(m: Message, incoming: Message) {
    m.isOptimistic && m.senderId == incoming.senderId && m.text == incoming.text && Socket.SameNumber(m.chatId, incoming.chatId)
  }

  /** The `filter` of lines 236-248: every entry the incoming message does not
      supersede, in the original order. */
  function DropSuperseded(msgs: seq<Message>, incoming: Message): (r: seq<Message>)
    ensures |r| <= |msgs|
    ensures forall m :: m in r ==> m in msgs && !Superseded(m, incoming)
  {
    if msgs == [] then []
    else
      var rest := DropSuperseded(msgs[1..], incoming);
      if Superseded(msgs[0], incoming) then rest else [msgs[0]] + rest
  }

  /** The filter keeps every entry it does not supersede as often as it
      occurs, and no superseded entry at all. */
  lemma {:induction false} DropSupersededCounts(msgs: seq<Message>, incoming: Message)
    ensures var r := DropSuperseded(msgs, incoming);
      && (forall m :: !Superseded(m, incoming) ==> multiset(r)[m] == multiset(msgs)[m])
      && (forall m :: Superseded(m, incoming) ==> multiset(r)[m] == 0)
  {
    if msgs != [] {
      DropSupersededCounts(msgs[1..], incoming);
      assert msgs == [msgs[0]] + msgs[1..];
    }
  }

  /** The `setMessages` updater of `handleNewMessage`. */
  function ApplyIncoming(msgs: seq<Message>, incoming: Message): (r: seq<Message>)
    ensures HasConfirmedCopy(msgs, incoming) ==> r == msgs
    ensures !HasConfirmedCopy(msgs, incoming) ==>
      && |r| >= 1 && r[|r| - 1] == incoming
      && (forall m :: m in r[..|r| - 1] <==> m in msgs && !Superseded(m, incoming))
  {
    if HasConfirmedCopy(msgs, incoming) then msgs
    else
      var kept := DropSuperseded(msgs, incoming);
      DropSupersededCounts(msgs, incoming);
      assert (kept + [incoming])[..|kept|] == kept;
      kept + [incoming]
  }

  lemma {:induction false} DropSupersededAppend(a: seq<Message>, b: seq<Message>, incoming: Message)
    ensures DropSuperseded(a + b, incoming) == DropSuperseded(a, incoming) + DropSuperseded(b, incoming)
  {
    if a == [] {
      assert a + b == b;
    } else {
      var ab := a + b;
      assert ab != [] && ab[0] == a[0] && ab[1..] == a[1..] + b;
      DropSupersededAppend(a[1..], b, incoming);
    }
  }

  lemma {:induction false} DropSupersededNone(msgs: seq<Message>, incoming: Message)
    requires forall m :: m in msgs ==> !Superseded(m, incoming)
    ensures DropSuperseded(msgs, incoming) == msgs
  {
    if msgs != [] {
      DropSupersededNone(msgs[1..], incoming);
    }
  }

  /** Reconciliation never removes or reorders an entry it does not
      supersede: such an entry keeps its place between what is kept before
      it and what is kept after it, and the incoming message goes last. */
  lemma KeepsOthersInPlace(before: seq<Message>, m: Message, after: seq<Message>, incoming: Message)
    requires !Superseded(m, incoming)
    requires !HasConfirmedCopy(before + [m] + after, incoming)
    ensures ApplyIncoming(before + [m] + after, incoming)
         == DropSuperseded(before, incoming) + [m] + DropSuperseded(after, incoming) + [incoming]
  {
    DropSupersededAppend(before + [m], after, incoming);
    DropSupersededAppend(before, [m], incoming);
    DropSupersededNone([m], incoming);
  }

  /** Confirmed messages always survive reconciliation. */
  lemma ConfirmedSurvive(msgs: seq<Message>, incoming: Message, m: Message)
    requires m in msgs && !m.isOptimistic
    ensures m in ApplyIncoming(msgs, incoming)
  {
    if !HasConfirmedCopy(msgs, incoming) {
      var r := ApplyIncoming(msgs, incoming);
      assert m in r[..|r| - 1];
    }
  }

  /** Applying the same server message twice gives what applying it once
      gives: the second delivery finds the confirmed copy the first one
      appended. */
  lemma ApplyIncomingIdempotent(msgs: seq<Message>, incoming: Message)
    requires !incoming.isOptimistic
    ensures ApplyIncoming(ApplyIncoming(msgs, incoming), incoming) == ApplyIncoming(msgs, incoming)
  {
    var r := ApplyIncoming(msgs, incoming);
    if !HasConfirmedCopy(msgs, incoming) {
      assert r[|r| - 1] == incoming;
      assert HasConfirmedCopy(r, incoming);
    }
  }

  /** Content matching cannot tell two identical sends apart: one echo
      removes every optimistic entry with its sender, text and chat. */
  lemma OneEchoRemovesIdenticalDrafts(msgs: seq<Message>, d1: Message, d2: Message, echo: Message)
    requires Superseded(d1, echo) && Superseded(d2, echo)
    requires !HasConfirmedCopy(msgs + [d1, d2], echo)
    ensures d1 !in ApplyIncoming(msgs + [d1, d2], echo)[..|ApplyIncoming(msgs + [d1, d2], echo)| - 1]
    ensures d2 !in ApplyIncoming(msgs + [d1, d2], echo)[..|ApplyIncoming(msgs + [d1, d2], echo)| - 1]
  {
  }

  // ---------------------------------------------------------------------
  // The optimistic entry of `handleSendMessage` (lines 325-350)
  // ---------------------------------------------------------------------

  /** `temp_${Date.now()}_${Math.random()}`, with the clock reading and the
      text of the random number given. */
  function TempIdText(now: nat, random: string): string {
    "temp_" + NatToString(now) + "_" + random
  }

  /** The text of a temporary id determines its parts: the clock reading's
      digits end at the first `_` after the prefix. */
  lemma TempIdTextInjective(now1: nat, random1: string, now2: nat, random2: string)
    ensures TempIdText(now1, random1) == TempIdText(now2, random2) <==> now1 == now2 && random1 == random2
  {
    var d1, d2 := NatToString(now1), NatToString(now2);
    var t1, t2 := TempIdText(now1, random1), TempIdText(now2, random2);
    IndexOfAfterDigits(t1[5..], |d1|, '_');
    IndexOfAfterDigits(t2[5..], |d2|, '_');
    if t1 == t2 {
      assert d1 == t1[5..5 + |d1|] && d2 == t2[5..5 + |d2|];
      assert random1 == t1[6 + |d1|..] && random2 == t2[6 + |d2|..];
      NatToStringValue(now1);
      NatToStringValue(now2);
    }
  }

  /** The optimistic entry: the temporary id, the fields of the payload,
      the creation time, the signed-in user as sender under the payload's
      sender id, and the single status `sending`. */
  function OptimisticMessage(data: Socket.MessageData, now: nat, random: string, createdAt: string, user: Sender): (m: Message)
    ensures m.id == TempId(now, random) && m.isOptimistic && m.status == [Sending]
    ensures m.chatId == data.chatId && m.senderId == data.senderId && m.text == data.text && m.messageType == data.messageType
    ensures m.createdAt == createdAt
    ensures m.sender == Some(Sender(data.senderId, user.username, user.fullName, user.profilePic))
  {
    Message(TempId(now, random), data.chatId, data.senderId, data.text, data.messageType, createdAt,
            Some(Sender(data.senderId, user.username, user.fullName, user.profilePic)), [Sending], true)
  }

  /** A draft whose chat id is NaN (a route id without digits) is never
      superseded, so no echo ever takes its place: it stays in the list. */
  lemma NaNChatDraftStays(msgs: seq<Message>, draft: Message, incoming: Message)
    requires draft in msgs && draft.chatId.ChatNaN?
    ensures draft in ApplyIncoming(msgs, incoming)
  {
    if !HasConfirmedCopy(msgs, incoming) {
      var r := ApplyIncoming(msgs, incoming);
      assert !Superseded(draft, incoming);
      assert draft in r[..|r| - 1];
    }
  }

  /** The echo of an optimistic send replaces it: when a list holds no
      confirmed copy of the echo and no other optimistic entry of the same
      content, appending the optimistic entry and then applying the echo
      leaves the list with the echo in the entry's place. */
  lemma EchoReplacesOptimistic(msgs: seq<Message>, draft: Message, echo: Message)
    requires draft.isOptimistic && !echo.isOptimistic
    requires draft.senderId == echo.senderId && draft.text == echo.text && Socket.SameNumber(draft.chatId, echo.chatId)
    requires !HasConfirmedCopy(msgs, echo) && echo.id != draft.id
    requires forall m :: m in msgs ==> !Superseded(m, echo)
    ensures ApplyIncoming(msgs + [draft], echo) == msgs + [echo]
  {
    assert !HasConfirmedCopy(msgs + [draft], echo);
    DropSupersededAppend(msgs, [draft], echo);
    DropSupersededNone(msgs, echo);
  }

  // ---------------------------------------------------------------------
  // Typing indicator set (lines 260-273)
  // ---------------------------------------------------------------------

  datatype TypingUser = TypingUser(userId: int, userName: Option<string>)

  predicate IsTyping(ts: seq<TypingUser>, u: int) {
    exists i :: 0 <= i < |ts| && ts[i].userId == u
  }

  predicate UniqueTypers(ts: seq<TypingUser>) {
    forall i, j :: 0 <= i < j < |ts| ==> ts[i].userId != ts[j].userId
  }

  /** The `user_typing` handler: one's own events are ignored; another user
      is added at the end unless already listed. */
  function AddTyping(prev: seq<TypingUser>, self: int, u: int, name: Option<string>): (r: seq<TypingUser>)
    ensures u == self || IsTyping(prev, u) ==> r == prev
    ensures u != self && !IsTyping(prev, u) ==> r == prev + [TypingUser(u, name)]
    ensures u != self ==> IsTyping(r, u)
    ensures UniqueTypers(prev) ==> UniqueTypers(r)
    ensures forall v :: v != u ==> (IsTyping(r, v) <==> IsTyping(prev, v))
  {
    if u != self && !IsTyping(prev, u) then
      var r := prev + [TypingUser(u, name)];
      assert r[|prev|].userId == u;
      assert forall i :: 0 <= i < |prev| ==> r[i] == prev[i];
      r
    else prev
  }

  /** The `user_stopped_typing` handler: every entry of that user goes, the
      others stay in order. */
  function RemoveTyping(prev: seq<TypingUser>, u: int): (r: seq<TypingUser>)
    ensures !IsTyping(r, u)
    ensures forall x :: x in r <==> x in prev && x.userId != u
    ensures |r| <= |prev|
  {
    if prev == [] then []
    else
      var rest := RemoveTyping(prev[1..], u);
      if prev[0].userId == u then rest
      else
        assert forall x :: x in [prev[0]] + rest <==> x == prev[0] || x in rest;
        [prev[0]] + rest
  }

  lemma {:induction false} RemoveTypingAppend(a: seq<TypingUser>, b: seq<TypingUser>, u: int)
    ensures RemoveTyping(a + b, u) == RemoveTyping(a, u) + RemoveTyping(b, u)
  {
    if a == [] {
      assert a + b == b;
    } else {
      var ab := a + b;
      assert ab != [] && ab[0] == a[0] && ab[1..] == a[1..] + b;
      RemoveTypingAppend(a[1..], b, u);
    }
  }

  /** A stopped-typing event keeps every other user's entry in its place. */
  lemma RemoveTypingKeepsOthers(before: seq<TypingUser>, x: TypingUser, after: seq<TypingUser>, u: int)
    requires x.userId != u
    ensures RemoveTyping(before + [x] + after, u) == RemoveTyping(before, u) + [x] + RemoveTyping(after, u)
  {
    RemoveTypingAppend(before + [x], after, u);
    RemoveTypingAppend(before, [x], u);
  }

  /** Removing keeps the user ids unique. */
  lemma {:induction false} RemoveTypingUnique(prev: seq<TypingUser>, u: int)
    requires UniqueTypers(prev)
    ensures UniqueTypers(RemoveTyping(prev, u))
  {
    if prev != [] {
      RemoveTypingUnique(prev[1..], u);
      var rest := RemoveTyping(prev[1..], u);
      if prev[0].userId != u {
        forall j | 0 <= j < |rest| ensures rest[j].userId != prev[0].userId {
          assert rest[j] in prev[1..];
        }
      }
    }
  }

  // ---------------------------------------------------------------------
  // Header presence (lines 131-179 and 276-284)
  // ---------------------------------------------------------------------

  datatype ChatType = Private | Group | OtherType(name: string)

  datatype MemberUser = MemberUser(fullName: Option<string>, username: Option<string>, isOnline: bool, lastSeen: Option<string>)

  datatype ChatMember = ChatMember(userId: int, user: Option<MemberUser>)

  /** The header state (`chatInfo`). `online` and `isOnline` are two fields
      of the source's state object that start equal. */
  datatype ChatInfo = ChatInfo(
    name: Option<string>,
    online: bool,
    isOnline: bool,
    lastSeen: Option<string>,
    chatType: Option<ChatType>,
    otherUserId: Option<int>)

  const InitialChatInfo := ChatInfo(Some(""), false, false, None, None, None)

  /** `members.find(m => m.user_id !== userId)`. */
  function FirstOther(members: seq<ChatMember>, self: int): (r: Option<ChatMember>)
    ensures r.Some? ==> r.value in members && r.value.userId != self
    ensures r.None? <==> forall m :: m in members ==> m.userId == self
  {
    if members == [] then None
    else if members[0].userId != self then Some(members[0])
    else FirstOther(members[1..], self)
  }

  /** `find` returns the first match: the member found stands at a position
      before which every member is the signed-in user. */
  lemma {:induction false} FirstOtherIsFirst(members: seq<ChatMember>, self: int) returns (i: nat)
    requires FirstOther(members, self).Some?
    ensures i < |members| && members[i] == FirstOther(members, self).value
    ensures forall k :: 0 <= k < i ==> members[k].userId == self
  {
    if members[0].userId != self {
      i := 0;
    } else {
      var j := FirstOtherIsFirst(members[1..], self);
      i := j + 1;
    }
  }

  /** The header the chat fetch produces (lines 131-179). For a private
      chat: the first other member's id; its `full_name`, else its
      `username`, else ''; and, when that id is truthy (not 0), its
      `is_online || false` and `last_seen || null`. For a group: its
      `chat_name` and no presence. For any other type: '' and no presence. */
  function HeaderFor(chatType: ChatType, members: seq<ChatMember>, chatName: Option<string>, self: int): (r: ChatInfo)
    ensures r.chatType == Some(chatType) && r.online == r.isOnline
    ensures r.otherUserId.Some? <==> chatType == Private && FirstOther(members, self).Some?
    ensures r.otherUserId.Some? ==> r.otherUserId.value != self
    ensures r.isOnline ==> r.otherUserId.Some? && r.otherUserId.value != 0
    ensures r.otherUserId.None? ==> !r.isOnline && r.lastSeen.None?
    ensures chatType == Group ==> r.name == chatName
    ensures chatType.OtherType? || (chatType == Private && FirstOther(members, self).None?) ==> r.name == Some("")
    ensures chatType == Private && FirstOther(members, self).Some? ==>
      var o := FirstOther(members, self).value;
      && r.otherUserId == Some(o.userId)
      && r.name == (if o.user.Some? && Filled(o.user.value.fullName) then o.user.value.fullName
                    else if o.user.Some? && Filled(o.user.value.username) then o.user.value.username
                    else Some(""))
      && (r.isOnline <==> o.userId != 0 && o.user.Some? && o.user.value.isOnline)
      && r.lastSeen == (if o.userId != 0 && o.user.Some? && Filled(o.user.value.lastSeen) then o.user.value.lastSeen else None)
  {
    var other := if chatType == Private then FirstOther(members, self) else None;
    var otherUserId := if other.Some? then Some(other.value.userId) else None;
    var name :=
      if other.Some? && other.value.user.Some? && Filled(other.value.user.value.fullName) then other.value.user.value.fullName
      else if other.Some? && other.value.user.Some? && Filled(other.value.user.value.username) then other.value.user.value.username
      else if chatType == Private then Some("")
      else if chatType == Group then chatName
      else Some("");
    var presence := if other.Some? && other.value.userId != 0 then other.value.user else None;
    var isOnline := presence.Some? && presence.value.isOnline;
    var lastSeen := if presence.Some? && Filled(presence.value.lastSeen) then presence.value.lastSeen else None;
    ChatInfo(name, isOnline, isOnline, lastSeen, Some(chatType), otherUserId)
  }

  /** The `user_online_status` handler: it compares the event's user with the
      `otherUserId` of the header as it was when the socket effect ran
      (`captured`), and on a match overwrites presence with the event's. */
  function ApplyOnlineStatus(captured: Option<int>, info: ChatInfo, u: int, isOnline: bool, lastSeen: Option<string>): (r: ChatInfo)
    ensures captured != Some(u) ==> r == info
    ensures captured == Some(u) ==> r.isOnline == isOnline && r.lastSeen == lastSeen
    ensures r.name == info.name && r.online == info.online && r.chatType == info.chatType && r.otherUserId == info.otherUserId
  {
    if captured == Some(u) then info.(isOnline := isOnline, lastSeen := lastSeen) else info
  }

  /** Presence is last-event-wins: of two matching events, the later one
      decides, whatever the earlier said. */
  lemma OnlineStatusLastWins(captured: Option<int>, info: ChatInfo, u: int, on1: bool, t1: Option<string>, on2: bool, t2: Option<string>)
    requires captured == Some(u)
    ensures ApplyOnlineStatus(captured, ApplyOnlineStatus(captured, info, u, on1, t1), u, on2, t2)
         == ApplyOnlineStatus(captured, info, u, on2, t2)
  {
  }

  /** The socket effect depends on the chat id and the user id only, so it
      captures the header of the first render, whose `otherUserId` is not yet
      set: from then on every `user_online_status` event is ignored. */
  lemma StatusIgnoredAfterMountCapture(info: ChatInfo, u: int, isOnline: bool, lastSeen: Option<string>)
    ensures ApplyOnlineStatus(InitialChatInfo.otherUserId, info, u, isOnline, lastSeen) == info
  {
  }

  // ---------------------------------------------------------------------
  // The component
  // ---------------------------------------------------------------------

  /** Listener identities of the component's four socket handlers. */
  const NewMessageHandler := Socket.Callback(1)
  const UserTypingHandler := Socket.Callback(2)
  const UserStoppedTypingHandler := Socket.Callback(3)
  const UserOnlineStatusHandler := Socket.Callback(4)

  class ChatWindowPage {
    /** The route's chat id, and `parseInt` of it. */
    const chatId: string
    const chatIdNumber: Socket.ChatNumber
    /** The signed-in user, as read from storage. */
    const userId: int
    const user: Sender

    var messageText: string
    var messages: seq<Message>
    var typingUsers: seq<TypingUser>
    var chatInfo: ChatInfo
    /** `chatInfo.otherUserId` as the socket effect's closure saw it. */
    var capturedOtherUserId: Option<int>
    /** `typingTimeoutRef.current` is set, and whether its stop-typing
        callback is still pending. */
    var typingTimeoutSet: bool
    var stopTypingPending: bool

    constructor (chatId: string, chatIdNumber: Socket.ChatNumber, userId: int, user: Sender)
      ensures this.chatId == chatId && this.chatIdNumber == chatIdNumber
      ensures this.userId == userId && this.user == user
      ensures messageText == "" && messages == [] && typingUsers == []
      ensures chatInfo == InitialChatInfo && capturedOtherUserId == None
      ensures !typingTimeoutSet && !stopTypingPending
    {
      this.chatId := chatId;
      this.chatIdNumber := chatIdNumber;
      this.userId := userId;
      this.user := user;
      messageText := "";
      messages := [];
      typingUsers := [];
      chatInfo := InitialChatInfo;
      capturedOtherUserId := None;
      typingTimeoutSet := false;
      stopTypingPending := false;
    }

    /** Lines 220-289: connect, join the room, register the four handlers;
        the handlers close over the header as it is now. */
    method SubscribeEffect(service: Socket.SocketService, storedToken: Option<string>)
      modifies this`capturedOtherUserId, service, service.socket
      ensures capturedOtherUserId == chatInfo.otherUserId
      ensures service.socket != null && service.isConnected == old(service.isConnected)
      ensures service.socket.connected == old(service.socket != null && service.isConnected && service.socket.connected)
      ensures old(service.socket != null && !service.isConnected) ==> unchanged(old(service.socket))
      ensures old(service.socket != null && service.isConnected) ==>
        && service.socket == old(service.socket)
        && service.socket.emitted == old(service.socket.emitted) + [Socket.JoinChat(chatId)]
      ensures !old(service.socket != null && service.isConnected) ==>
        && fresh(service.socket)
        && service.socket.emitted == (if service.isConnected then [Socket.JoinChat(chatId)] else [])
      ensures service.socket.listeners == old(if service.socket != null && service.isConnected then service.socket.listeners else Socket.ServiceListeners)
        + [Socket.Listener("new_message", NewMessageHandler),
           Socket.Listener("user_typing", UserTypingHandler),
           Socket.Listener("user_stopped_typing", UserStoppedTypingHandler),
           Socket.Listener("user_online_status", UserOnlineStatusHandler)]
    {
      var _ := service.Connect(Some(userId), storedToken);
      service.JoinChat(chatId);
      RegisterHandlers(service);
      capturedOtherUserId := chatInfo.otherUserId;
    }

    /** The four registrations of the effect, in their order. */
    method RegisterHandlers(service: Socket.SocketService)
      requires service.socket != null
      modifies service.socket
      ensures service.socket == old(service.socket) && service.isConnected == old(service.isConnected)
      ensures service.socket.emitted == old(service.socket.emitted) && service.socket.connected == old(service.socket.connected)
      ensures service.socket.listeners == old(service.socket.listeners)
        + [Socket.Listener("new_message", NewMessageHandler),
           Socket.Listener("user_typing", UserTypingHandler),
           Socket.Listener("user_stopped_typing", UserStoppedTypingHandler),
           Socket.Listener("user_online_status", UserOnlineStatusHandler)]
    {
      service.OnNewMessage(NewMessageHandler);
      service.OnUserTyping(UserTypingHandler);
      service.OnUserStoppedTyping(UserStoppedTypingHandler);
      service.OnUserOnlineStatus(UserOnlineStatusHandler);
    }

    /** The chat fetch resolving (lines 169-179). */
    method ChatLoaded(chatType: ChatType, members: seq<ChatMember>, chatName: Option<string>)
      modifies this`chatInfo
      ensures chatInfo == HeaderFor(chatType, members, chatName, userId)
    {
      chatInfo := HeaderFor(chatType, members, chatName, userId);
    }

    /** The message fetch resolving (line 189): `data.messages || []`. */
    method MessagesLoaded(loaded: Option<seq<Message>>)
      modifies this`messages
      ensures messages == loaded.GetOr([])
    {
      messages := loaded.GetOr([]);
    }

    method HandleNewMessage(incoming: Message)
      modifies this`messages
      ensures messages == ApplyIncoming(old(messages), incoming)
    {
      messages := ApplyIncoming(messages, incoming);
    }

    method HandleUserTyping(u: int, name: Option<string>)
      modifies this`typingUsers
      ensures typingUsers == AddTyping(old(typingUsers), userId, u, name)
    {
      typingUsers := AddTyping(typingUsers, userId, u, name);
    }

    method HandleUserStoppedTyping(u: int)
      modifies this`typingUsers
      ensures typingUsers == RemoveTyping(old(typingUsers), u)
    {
      typingUsers := RemoveTyping(typingUsers, u);
    }

    method HandleUserOnlineStatus(u: int, isOnline: bool, lastSeen: Option<string>)
      modifies this`chatInfo
      ensures chatInfo == ApplyOnlineStatus(capturedOtherUserId, old(chatInfo), u, isOnline, lastSeen)
    {
      if capturedOtherUserId == Some(u) {
        chatInfo := chatInfo.(isOnline := isOnline, lastSeen := lastSeen);
      }
    }

    /** The input's `onChange`. */
    method SetMessageText(text: string)
      modifies this`messageText
      ensures messageText == text
    {
      messageText := text;
    }

    /** `handleSendMessage` (lines 310-351), with `Date.now()`, the text of
        `Math.random()` and the ISO creation time as inputs. Whitespace-only
        text does nothing. Otherwise the input is cleared, a pending
        stop-typing timeout is cancelled, `stopped_typing` and `send_message`
        go through the socket gate, and exactly one optimistic entry with the
        trimmed text is appended. */
    method HandleSendMessage(service: Socket.SocketService, now: nat, random: string, createdAt: string)
      modifies this`messageText, this`messages, this`typingTimeoutSet, this`stopTypingPending, service.socket
      ensures service.socket == old(service.socket) && service.isConnected == old(service.isConnected)
      ensures service.socket != null ==>
        service.socket.listeners == old(service.socket.listeners) && service.socket.connected == old(service.socket.connected)
      ensures Trim(old(messageText)) == [] ==>
        && messages == old(messages) && messageText == old(messageText)
        && typingTimeoutSet == old(typingTimeoutSet) && stopTypingPending == old(stopTypingPending)
        && (service.socket != null ==> service.socket.emitted == old(service.socket.emitted))
      ensures Trim(old(messageText)) != [] ==>
        var data := Socket.MessageData(chatIdNumber, userId, Trim(old(messageText)), "text");
        && messages == old(messages) + [OptimisticMessage(data, now, random, createdAt, user)]
        && messageText == ""
        && !typingTimeoutSet
        && (old(typingTimeoutSet) ==> !stopTypingPending)
        && (!old(typingTimeoutSet) ==> stopTypingPending == old(stopTypingPending))
        && (service.socket != null ==>
              (service.socket.emitted ==
                 if service.isConnected
                 then old(service.socket.emitted) + [Socket.StoppedTyping(chatId, userId), Socket.SendMessage(data)]
                 else old(service.socket.emitted)))
    {
      var toSend := Trim(messageText);
      if toSend == [] {
        return;
      }
      messageText := "";
      if typingTimeoutSet {
        stopTypingPending := false;
        typingTimeoutSet := false;
      }
      service.SendStoppedTyping(chatId, userId);
      var data := Socket.MessageData(chatIdNumber, userId, toSend, "text");
      service.SendMessage(data);
      messages := messages + [OptimisticMessage(data, now, random, createdAt, user)];
    }

    /** `handleTyping` (lines 354-368): only while the socket is connected,
        emit `typing` and (re)start the two-second stop-typing timeout. */
    method HandleTyping(service: Socket.SocketService)
      modifies this`typingTimeoutSet, this`stopTypingPending, service.socket
      ensures service.socket == old(service.socket) && service.isConnected == old(service.isConnected)
      ensures service.socket != null ==>
        service.socket.listeners == old(service.socket.listeners) && service.socket.connected == old(service.socket.connected)
      ensures var live := old(service.isConnected && service.socket != null && service.socket.connected);
        && (live ==>
              (typingTimeoutSet && stopTypingPending
               && service.socket.emitted == old(service.socket.emitted) + [Socket.Typing(chatId, userId)]))
        && (!live ==>
              (typingTimeoutSet == old(typingTimeoutSet) && stopTypingPending == old(stopTypingPending)
               && (service.socket != null ==> service.socket.emitted == old(service.socket.emitted))))
    {
      var live := service.IsSocketConnected();
      if !live {
        return;
      }
      service.SendTyping(chatId, userId);
      typingTimeoutSet := true;
      stopTypingPending := true;
    }

    /** The two-second timeout firing: it emits `stopped_typing` through the
        gate and leaves `typingTimeoutRef.current` set. */
    method StopTypingTimeout(service: Socket.SocketService)
      requires stopTypingPending
      modifies this`stopTypingPending, service.socket
      ensures !stopTypingPending
      ensures service.EmitsWhenConnected(Socket.StoppedTyping(chatId, userId))
    {
      stopTypingPending := false;
      service.SendStoppedTyping(chatId, userId);
    }

    /** The effect cleanup (lines 292-298): leave the room and unregister
        the four handlers. */
    method Unsubscribe(service: Socket.SocketService)
      modifies service.socket
      ensures service.socket == old(service.socket) && service.isConnected == old(service.isConnected)
      ensures service.socket != null ==>
        && service.socket.connected == old(service.socket.connected)
        && service.socket.emitted ==
             (if service.isConnected then old(service.socket.emitted) + [Socket.LeaveChat(chatId)] else old(service.socket.emitted))
        && service.socket.listeners ==
             Socket.RemoveFirst(Socket.RemoveFirst(Socket.RemoveFirst(Socket.RemoveFirst(old(service.socket.listeners),
               Socket.Listener("new_message", NewMessageHandler)),
               Socket.Listener("user_typing", UserTypingHandler)),
               Socket.Listener("user_stopped_typing", UserStoppedTypingHandler)),
               Socket.Listener("user_online_status", UserOnlineStatusHandler))
    {
      service.LeaveChat(chatId);
      service.Off("new_message", NewMessageHandler);
      service.Off("user_typing", UserTypingHandler);
      service.Off("user_stopped_typing", UserStoppedTypingHandler);
      service.Off("user_online_status", UserOnlineStatusHandler);
    }
  }
}
