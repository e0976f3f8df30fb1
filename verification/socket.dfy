/** The realtime session of src/utils/socket.js: a `SocketService` that owns
    at most one socket.io client socket and gates every outbound event on its
    own `isConnected` flag.

    The socket.io client itself is abstracted as a `ClientSocket` object: the
    authentication it was created with, the library's own `connected` flag,
    the log of events emitted on it and the list of registered listeners.
    Connection events (`connect`, `disconnect`, `connect_error`) are explicit
    operations; transports and reconnection policy are not modelled. */
module Socket {
  import opened Wrappers

  /** A chat id as a JavaScript number: an integer, or NaN when `parseInt`
      finds no digits in the text it is given. */
  datatype ChatNumber = ChatNum(n: int) | ChatNaN

  /** `a === b` on two such numbers: NaN equals nothing, itself included. */
  predicate SameNumber(a: ChatNumber, b: ChatNumber) {
    a.ChatNum? && b.ChatNum? && a.n == b.n
  }

  /** The payload of `send_message`. */
  datatype MessageData = MessageData(chatId: ChatNumber, senderId: int, text: string, messageType: string)

  /** The outbound events of the service, each with its fixed event name. */
  datatype Outbound =
    | JoinChat(chatId: string)
    | LeaveChat(chatId: string)
    | SendMessage(data: MessageData)
    | Typing(chatId: string, userId: int)
    | StoppedTyping(chatId: string, userId: int)
    | MarkRead(messageId: int, userId: int)
  {
    function Name(): string {
      match this
      case JoinChat(_) => "join_chat"
      case LeaveChat(_) => "leave_chat"
      case SendMessage(_) => "send_message"
      case Typing(_, _) => "typing"
      case StoppedTyping(_, _) => "stopped_typing"
      case MarkRead(_, _) => "mark_read"
    }
  }

  /** A listener function, compared by identity as JavaScript compares
      function references: the three the service installs itself, or a
      caller's callback. */
  datatype Handler = ServiceOnConnect | ServiceOnDisconnect | ServiceOnConnectError | Callback(id: nat)

  datatype Listener = Listener(event: string, handler: Handler)

  /** The listeners `connect` installs on every socket it creates. */
  const ServiceListeners: seq<Listener> := [
    Listener("connect", ServiceOnConnect),
    Listener("disconnect", ServiceOnDisconnect),
    Listener("connect_error", ServiceOnConnectError)
  ]

  /** The position of the first copy of `l`, or `|ls|` when there is none. */
  function ListenerIndex(ls: seq<Listener>, l: Listener): (i: nat)
    ensures i <= |ls| && (i < |ls| <==> l in ls)
    ensures i < |ls| ==> ls[i] == l
    ensures forall k :: 0 <= k < i ==> ls[k] != l
  {
    if ls == [] || ls[0] == l then 0 else 1 + ListenerIndex(ls[1..], l)
  }

  /** Removes the first registration of `handler` for `event`, as the
      emitter behind socket.io does for `off(event, fn)`: the list loses
      the first copy of `l` and nothing else moves. */
  function RemoveFirst(ls: seq<Listener>, l: Listener): (r: seq<Listener>)
    ensures l !in ls ==> r == ls
    ensures l in ls ==> |r| == |ls| - 1 && multiset(r) == multiset(ls) - multiset{l}
    ensures l in ls ==> exists i :: 0 <= i < |ls| && ls[i] == l && l !in ls[..i] && r == ls[..i] + ls[i + 1..]
  {
    var i := ListenerIndex(ls, l);
    if i == |ls| then ls
    else
      assert ls == ls[..i] + [ls[i]] + ls[i + 1..];
      assert l !in ls[..i];
      ls[..i] + ls[i + 1..]
  }

  /** Removes every registration for `event`; the others keep their order
      (`RemoveEventAppend`) and their number of copies. */
  function RemoveEvent(ls: seq<Listener>, event: string): (r: seq<Listener>)
    ensures forall l :: l in r <==> l in ls && l.event != event
    ensures forall l: Listener :: l.event != event ==> multiset(r)[l] == multiset(ls)[l]
    ensures |r| <= |ls|
  {
    if ls == [] then []
    else
      assert ls == [ls[0]] + ls[1..];
      if ls[0].event == event then RemoveEvent(ls[1..], event)
      else [ls[0]] + RemoveEvent(ls[1..], event)
  }

  /** Removing an event's listeners works piece by piece: kept listeners
      stay in their order. */
  lemma {:induction false} RemoveEventAppend(a: seq<Listener>, b: seq<Listener>, event: string)
    ensures RemoveEvent(a + b, event) == RemoveEvent(a, event) + RemoveEvent(b, event)
  {
    if a == [] {
      assert a + b == b;
    } else {
      var ab := a + b;
      assert ab != [] && ab[0] == a[0] && ab[1..] == a[1..] + b;
      RemoveEventAppend(a[1..], b, event);
    }
  }

  /** The abstract socket.io client socket. */
  class ClientSocket {
    const token: Option<string>
    const userId: Option<int>
    var connected: bool
    var emitted: seq<Outbound>
    var listeners: seq<Listener>

    constructor (token: Option<string>, userId: Option<int>)
      ensures this.token == token && this.userId == userId
      ensures !connected && emitted == [] && listeners == []
    {
      this.token := token;
      this.userId := userId;
      connected := false;
      emitted := [];
      listeners := [];
    }
  }

  class SocketService {
    var socket: ClientSocket?
    var isConnected: bool

    constructor ()
      ensures socket == null && !isConnected
    {
      socket := null;
      isConnected := false;
    }

    /** What every gated emit promises: exactly `e` is appended to the log of
        the current socket when there is one and the service is connected;
        otherwise nothing is emitted and nothing is queued. The service's
        fields, the socket's listeners and its connection flag stay as they were. */
    twostate predicate EmitsWhenConnected(e: Outbound)
      reads this, socket
    {
      && socket == old(socket)
      && isConnected == old(isConnected)
      && (socket != null ==>
            && socket.listeners == old(socket.listeners)
            && socket.connected == old(socket.connected)
            && socket.emitted == if isConnected then old(socket.emitted) + [e] else old(socket.emitted))
    }

    /** `connect(userId)`: returns the current socket when there is one and the
        service is connected; otherwise creates a new socket carrying the
        stored access token and `userId`, with the service's three connection
        listeners installed. It never changes `isConnected` itself, and a
        socket it replaces is neither disconnected nor changed. */
    method Connect(userId: Option<int>, storedToken: Option<string>) returns (s: ClientSocket)
      modifies this
      ensures isConnected == old(isConnected)
      ensures old(socket != null && isConnected) ==> s == old(socket) && socket == s
      ensures !old(socket != null && isConnected) ==>
        && fresh(s) && socket == s
        && s.token == storedToken && s.userId == userId
        && !s.connected && s.emitted == [] && s.listeners == ServiceListeners
    {
      if socket != null && isConnected {
        return socket;
      }
      s := new ClientSocket(storedToken, userId);
      s.listeners := s.listeners + [Listener("connect", ServiceOnConnect)];
      s.listeners := s.listeners + [Listener("disconnect", ServiceOnDisconnect)];
      s.listeners := s.listeners + [Listener("connect_error", ServiceOnConnectError)];
      socket := s;
    }

    /** The `connect` event fired by socket `s` (the current one or one that
        an earlier `connect` replaced): the socket is connected. The
        service's listener, when still registered on `s`, logs
        `this.socket.id` before it sets the flag, so when the service holds
        no socket it throws a TypeError and the flag stays as it was. */
    method ConnectEvent(s: ClientSocket)
      modifies this, s
      ensures s.connected && s.emitted == old(s.emitted) && s.listeners == old(s.listeners)
      ensures socket == old(socket)
      ensures isConnected == ((socket != null && Listener("connect", ServiceOnConnect) in s.listeners) || old(isConnected))
    {
      s.connected := true;
      if Listener("connect", ServiceOnConnect) in s.listeners {
        if socket == null {
          return;
        }
        isConnected := true;
      }
    }

    /** The `disconnect` event fired by socket `s`. */
    method DisconnectEvent(s: ClientSocket)
      modifies this, s
      ensures !s.connected && s.emitted == old(s.emitted) && s.listeners == old(s.listeners)
      ensures socket == old(socket)
      ensures isConnected == (Listener("disconnect", ServiceOnDisconnect) !in s.listeners && old(isConnected))
    {
      s.connected := false;
      if Listener("disconnect", ServiceOnDisconnect) in s.listeners {
        isConnected := false;
      }
    }

    /** The `connect_error` event fired by socket `s`: the attempt failed. */
    method ConnectErrorEvent(s: ClientSocket)
      modifies this, s
      ensures !s.connected && s.emitted == old(s.emitted) && s.listeners == old(s.listeners)
      ensures socket == old(socket)
      ensures isConnected == (Listener("connect_error", ServiceOnConnectError) !in s.listeners && old(isConnected))
    {
      s.connected := false;
      if Listener("connect_error", ServiceOnConnectError) in s.listeners {
        isConnected := false;
      }
    }

    /** `disconnect()`: closes and forgets the current socket; without one it
        does nothing. */
    method Disconnect()
      modifies this, socket
      ensures old(socket) != null ==>
        && socket == null && !isConnected
        && !old(socket).connected
        && old(socket).emitted == old(socket.emitted) && old(socket).listeners == old(socket.listeners)
      ensures old(socket) == null ==> socket == null && isConnected == old(isConnected)
    {
      if socket != null {
        socket.connected := false;
        socket := null;
        isConnected := false;
      }
    }

    /** The gate shared by every emit method. */
    method Emit(e: Outbound)
      modifies socket
      ensures EmitsWhenConnected(e)
    {
      if socket != null && isConnected {
        socket.emitted := socket.emitted + [e];
      }
    }

    method JoinChat(chatId: string)
      modifies socket
      ensures EmitsWhenConnected(Outbound.JoinChat(chatId))
    {
      Emit(Outbound.JoinChat(chatId));
    }

    method LeaveChat(chatId: string)
      modifies socket
      ensures EmitsWhenConnected(Outbound.LeaveChat(chatId))
    {
      Emit(Outbound.LeaveChat(chatId));
    }

    method SendMessage(data: MessageData)
      modifies socket
      ensures EmitsWhenConnected(Outbound.SendMessage(data))
    {
      Emit(Outbound.SendMessage(data));
    }

    method SendTyping(chatId: string, userId: int)
      modifies socket
      ensures EmitsWhenConnected(Typing(chatId, userId))
    {
      Emit(Typing(chatId, userId));
    }

    method SendStoppedTyping(chatId: string, userId: int)
      modifies socket
      ensures EmitsWhenConnected(StoppedTyping(chatId, userId))
    {
      Emit(StoppedTyping(chatId, userId));
    }

    method MarkMessageAsRead(messageId: int, userId: int)
      modifies socket
      ensures EmitsWhenConnected(MarkRead(messageId, userId))
    {
      Emit(MarkRead(messageId, userId));
    }

    /** What every registration method promises: with a socket, the listener
        is appended to its list; without one nothing happens. Nothing else
        changes. */
    twostate predicate RegistersWhenSocket(event: string, h: Handler)
      reads this, socket
    {
      && socket == old(socket)
      && isConnected == old(isConnected)
      && (socket != null ==>
            && socket.emitted == old(socket.emitted)
            && socket.connected == old(socket.connected)
            && socket.listeners == old(socket.listeners) + [Listener(event, h)])
    }

    /** The registration shared by every `onX` method. */
    method On(event: string, h: Handler)
      modifies socket
      ensures RegistersWhenSocket(event, h)
    {
      if socket != null {
        socket.listeners := socket.listeners + [Listener(event, h)];
      }
    }

    method OnNewMessage(h: Handler)
      modifies socket
      ensures RegistersWhenSocket("new_message", h)
    {
      On("new_message", h);
    }

    method OnMessageStatusUpdate(h: Handler)
      modifies socket
      ensures RegistersWhenSocket("message_status_update", h)
    {
      On("message_status_update", h);
    }

    method OnUserTyping(h: Handler)
      modifies socket
      ensures RegistersWhenSocket("user_typing", h)
    {
      On("user_typing", h);
    }

    method OnUserStoppedTyping(h: Handler)
      modifies socket
      ensures RegistersWhenSocket("user_stopped_typing", h)
    {
      On("user_stopped_typing", h);
    }

    method OnUserOnlineStatus(h: Handler)
      modifies socket
      ensures RegistersWhenSocket("user_online_status", h)
    {
      On("user_online_status", h);
    }

    /** `off(event, callback)`: drops one registration of the callback for
        that event; without a socket it does nothing. */
    method Off(event: string, h: Handler)
      modifies socket
      ensures socket == old(socket) && isConnected == old(isConnected)
      ensures socket != null ==>
        && socket.emitted == old(socket.emitted) && socket.connected == old(socket.connected)
        && socket.listeners == RemoveFirst(old(socket.listeners), Listener(event, h))
    {
      if socket != null {
        socket.listeners := RemoveFirst(socket.listeners, Listener(event, h));
      }
    }

    /** `removeAllListeners(event)`. */
    method RemoveAllListeners(event: string)
      modifies socket
      ensures socket == old(socket) && isConnected == old(isConnected)
      ensures socket != null ==>
        && socket.emitted == old(socket.emitted) && socket.connected == old(socket.connected)
        && socket.listeners == RemoveEvent(old(socket.listeners), event)
    {
      if socket != null {
        socket.listeners := RemoveEvent(socket.listeners, event);
      }
    }

    method GetSocket() returns (s: ClientSocket?)
      ensures s == socket
    {
      s := socket;
    }

    /** `isSocketConnected()`: the service's flag and the socket's own. */
    method IsSocketConnected() returns (b: bool)
      ensures b <==> isConnected && socket != null && socket.connected
    {
      b := isConnected && socket != null && socket.connected;
    }
  }

  /** Right after `connect` creates a socket, the service is not yet known to
      be connected on it unless a socket it replaced reported a connection:
      from a fresh service, a `join_chat` issued straight after `connect`
      (as src/pages/ChatWindow.js does at lines 222-225) is dropped. */
  method JoinRightAfterFirstConnect(userId: Option<int>, token: Option<string>, chatId: string)
    returns (service: SocketService, s: ClientSocket)
    ensures fresh(service) && service.socket == s && s.emitted == []
  {
    service := new SocketService();
    s := service.Connect(userId, token);
    service.JoinChat(chatId);
  }
}
