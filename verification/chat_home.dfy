/** The chat list of src/pages/ChatHome.js: member presence patched by
    `user_online` / `user_offline` events, the search filter, the chat
    avatar's initials, the profile-picture URL rewrite, and the draggable
    divider of the two-column layout. */
module ChatHome {
  import opened Wrappers
  import opened JsText
  import Socket

  /** A chat member as the chat preview lists it. */
  datatype Member = Member(userId: int, username: Option<string>, isOnline: bool, lastSeen: Option<string>)

  /** A chat preview; `members` is missing for some chats. */
  datatype Chat = Chat(chatId: int, chatType: string, chatName: Option<string>, members: Option<seq<Member>>)

  /** A presence event for one user: `user_online`, or `user_offline` with
      the `lastSeen` it carries. */
  datatype Presence = Online | Offline(lastSeen: Option<string>)

  // ---------------------------------------------------------------------
  // Presence (lines 245-283)
  // ---------------------------------------------------------------------

  /** The index of `members.find(m => m.user_id !== self)`, or `|ms|`. */
  function FirstOtherIndex(ms: seq<Member>, self: int): (i: nat)
    ensures i <= |ms|
    ensures forall k :: 0 <= k < i ==> ms[k].userId == self
    ensures i < |ms| ==> ms[i].userId != self
  {
    if ms == [] || ms[0].userId != self then 0 else 1 + FirstOtherIndex(ms[1..], self)
  }

  /** A private chat with members whose first other member is `u`. */
  predicate Targets(c: Chat, self: int, u: int) {
    && c.chatType == "private" && c.members.Some?
    && var i := FirstOtherIndex(c.members.value, self);
       i < |c.members.value| && c.members.value[i].userId == u
  }

  function PatchMember(m: Member, u: int, e: Presence): Member {
    if m.userId != u then m
    else match e
      case Online => m.(isOnline := true)
      case Offline(t) => m.(isOnline := false, lastSeen := t)
  }

  function PatchMembers(ms: seq<Member>, u: int, e: Presence): (r: seq<Member>)
    ensures |r| == |ms|
    ensures forall k :: 0 <= k < |ms| ==> r[k] == PatchMember(ms[k], u, e)
  {
    seq(|ms|, k requires 0 <= k < |ms| => PatchMember(ms[k], u, e))
  }

  function PatchChat(c: Chat, self: int, u: int, e: Presence): Chat {
    if Targets(c, self, u) then c.(members := Some(PatchMembers(c.members.value, u, e))) else c
  }

  /** The `setChats` updater of `handleUserOnline` (`Online`) and of
      `handleUserOffline` (`Offline`). Every chat keeps its place; a chat
      that is not private, has no members, or whose first other member is
      not `u` is returned as it was; in a targeted chat exactly the members
      with id `u` get the event's presence and nothing else changes. */
  function ApplyPresence(chats: seq<Chat>, self: int, u: int, e: Presence): (r: seq<Chat>)
    ensures |r| == |chats|
    ensures forall i :: 0 <= i < |chats| && !Targets(chats[i], self, u) ==> r[i] == chats[i]
    ensures forall i :: 0 <= i < |chats| && Targets(chats[i], self, u) ==>
      && r[i].chatId == chats[i].chatId && r[i].chatType == chats[i].chatType && r[i].chatName == chats[i].chatName
      && r[i].members.Some? && |r[i].members.value| == |chats[i].members.value|
      && (forall k :: 0 <= k < |chats[i].members.value| ==>
            var before, after := chats[i].members.value[k], r[i].members.value[k];
            && after.userId == before.userId && after.username == before.username
            && (before.userId != u ==> after == before)
            && (before.userId == u ==> after.isOnline == e.Online?)
            && (before.userId == u && e.Offline? ==> after.lastSeen == e.lastSeen)
            && (e.Online? ==> after.lastSeen == before.lastSeen))
  {
    seq(|chats|, i requires 0 <= i < |chats| => PatchChat(chats[i], self, u, e))
  }

  /** Patching leaves every user id in place, so the first other member and
      with it the choice of targeted chats stay the same. */
  lemma {:induction false} FirstOtherStable(ms: seq<Member>, ns: seq<Member>, self: int)
    requires |ms| == |ns|
    requires forall k :: 0 <= k < |ms| ==> ms[k].userId == ns[k].userId
    ensures FirstOtherIndex(ms, self) == FirstOtherIndex(ns, self)
  {
    if ms != [] && ms[0].userId == self {
      FirstOtherStable(ms[1..], ns[1..], self);
    }
  }

  lemma TargetsStable(c: Chat, self: int, u: int, v: int, e: Presence)
    ensures Targets(PatchChat(c, self, v, e), self, u) <==> Targets(c, self, u)
  {
    if Targets(c, self, v) {
      FirstOtherStable(c.members.value, PatchMembers(c.members.value, v, e), self);
    }
  }

  /** An event about the current user changes nothing: the first other
      member is never the current user. */
  lemma OwnIdNoOp(chats: seq<Chat>, self: int, e: Presence)
    ensures ApplyPresence(chats, self, self, e) == chats
  {
    forall i | 0 <= i < |chats| ensures !Targets(chats[i], self, self) {
    }
  }

  /** Repeating an event equals applying it once. */
  lemma PresenceIdempotent(chats: seq<Chat>, self: int, u: int, e: Presence)
    ensures ApplyPresence(ApplyPresence(chats, self, u, e), self, u, e) == ApplyPresence(chats, self, u, e)
  {
    var once := ApplyPresence(chats, self, u, e);
    forall i | 0 <= i < |chats| ensures PatchChat(once[i], self, u, e) == once[i] {
      TargetsStable(chats[i], self, u, u, e);
      if Targets(chats[i], self, u) {
        var ms := once[i].members.value;
        assert PatchMembers(ms, u, e) == ms;
      }
    }
  }

  /** `user_offline` overrides whatever presence event came before it. */
  lemma OfflineOverrides(chats: seq<Chat>, self: int, u: int, e: Presence, t: Option<string>)
    ensures ApplyPresence(ApplyPresence(chats, self, u, e), self, u, Offline(t)) == ApplyPresence(chats, self, u, Offline(t))
  {
    var first := ApplyPresence(chats, self, u, e);
    var both := ApplyPresence(first, self, u, Offline(t));
    var direct := ApplyPresence(chats, self, u, Offline(t));
    forall i | 0 <= i < |chats| ensures both[i] == direct[i] {
      TargetsStable(chats[i], self, u, u, e);
      if Targets(chats[i], self, u) {
        assert PatchMembers(first[i].members.value, u, Offline(t)) == PatchMembers(chats[i].members.value, u, Offline(t));
      }
    }
  }

  /** The online flags of every member of every chat (none for a chat
      without members). */
  function OnlineFlags(chats: seq<Chat>): (r: seq<seq<bool>>)
    ensures |r| == |chats|
  {
    seq(|chats|, i requires 0 <= i < |chats| =>
      if chats[i].members.None? then []
      else seq(|chats[i].members.value|, k requires 0 <= k < |chats[i].members.value| => chats[i].members.value[k].isOnline))
  }

  /** Online status is last-event-wins: after two events for the same user,
      every member's online flag is what the second event alone would give
      (online after offline is online, offline after online is offline). */
  lemma OnlineLastEventWins(chats: seq<Chat>, self: int, u: int, e1: Presence, e2: Presence)
    ensures OnlineFlags(ApplyPresence(ApplyPresence(chats, self, u, e1), self, u, e2))
         == OnlineFlags(ApplyPresence(chats, self, u, e2))
  {
    var first := ApplyPresence(chats, self, u, e1);
    var both := ApplyPresence(first, self, u, e2);
    var direct := ApplyPresence(chats, self, u, e2);
    forall i | 0 <= i < |chats| ensures OnlineFlags(both)[i] == OnlineFlags(direct)[i] {
      TargetsStable(chats[i], self, u, u, e1);
    }
  }

  // ---------------------------------------------------------------------
  // Search filter (lines 184-186)
  // ---------------------------------------------------------------------

  /** `(chat.chat_name || '').toLowerCase().includes(query.toLowerCase())`. */
  function MatchesQuery(c: Chat, query: string): (b: bool)
    ensures query == "" ==> b
  {
    var name := Lower(c.chatName.GetOr(""));
    assert query == "" ==> OccursAt(name, Lower(query), 0);
    Contains(name, Lower(query))
  }

  /** `filteredChats`: the matching chats, in order. */
  function FilterChats(chats: seq<Chat>, query: string): (r: seq<Chat>)
    ensures forall c :: c in r <==> c in chats && MatchesQuery(c, query)
    ensures |r| <= |chats|
  {
    if chats == [] then []
    else
      var rest := FilterChats(chats[1..], query);
      if MatchesQuery(chats[0], query) then
        assert forall c :: c in [chats[0]] + rest <==> c == chats[0] || c in rest;
        [chats[0]] + rest
      else rest
  }

  /** Filtering distributes over concatenation, so the kept chats stay in
      their original order. */
  lemma {:induction false} FilterChatsAppend(a: seq<Chat>, b: seq<Chat>, query: string)
    ensures FilterChats(a + b, query) == FilterChats(a, query) + FilterChats(b, query)
  {
    if a == [] {
      assert a + b == b;
    } else {
      var ab := a + b;
      assert ab != [] && ab[0] == a[0] && ab[1..] == a[1..] + b;
      FilterChatsAppend(a[1..], b, query);
    }
  }

  /** An empty query keeps every chat. */
  lemma {:induction false} EmptyQueryKeepsAll(chats: seq<Chat>)
    ensures FilterChats(chats, "") == chats
  {
    if chats != [] {
      var name := Lower(chats[0].chatName.GetOr(""));
      assert OccursAt(name, Lower(""), 0);
      EmptyQueryKeepsAll(chats[1..]);
    }
  }

  // ---------------------------------------------------------------------
  // Initials (lines 602-609)
  // ---------------------------------------------------------------------

  /** The index of the last `c` in `s`. */
  function LastIndex(s: string, c: char): (j: nat)
    requires c in s
    ensures j < |s| && s[j] == c && c !in s[j + 1..]
  {
    if s[|s| - 1] == c then |s| - 1
    else
      assert s == s[..|s| - 1] + [s[|s| - 1]];
      var j := LastIndex(s[..|s| - 1], c);
      assert s[j + 1..] == s[..|s| - 1][j + 1..] + [s[|s| - 1]];
      j
  }

  /** The words of a trimmed name are never empty at either end. */
  lemma WordEnds(t: string)
    requires t != [] && t[0] != ' ' && t[|t| - 1] != ' ' && ' ' in t
    ensures var words := SplitOn(t, ' ');
      && words[0] != [] && words[0][0] == t[0]
      && var j := LastIndex(t, ' ');
         j + 1 < |t| && words[|words| - 1] == t[j + 1..]
  {
    SplitOnFirst(t, ' ');
    SplitOnLast(t, ' ', LastIndex(t, ' '));
  }

  const SpeechBalloon: string := "\U{1F4AC}"

  /** `getInitials(name)`. */
  function GetInitials(name: Option<string>): (r: string)
    ensures |r| <= 2
  {
    if !Filled(name) then SpeechBalloon
    else
      var t := Trim(name.value);
      var words := SplitOn(t, ' ');
      if |words| >= 2 then
        assert ' ' in t;
        WordEnds(t);
        Upper([words[0][0], words[|words| - 1][0]])
      else Upper(Prefix(name.value, 2))
  }

  /** The fallback as it stands in the source file: the UTF-8 bytes of the
      speech balloon U+1F4AC read back as Windows-1252, four characters. */
  const SpeechBalloonAsWritten: string := "\U{F0}\U{178}\U{2019}\U{AC}"

  /** `getInitials(name)` with the fallback literal as written: a filled
      name gives what `GetInitials` gives, a missing or empty one the four
      misread characters. */
  function GetInitialsAsWritten(name: Option<string>): (r: string)
    ensures |r| <= 2 || r == SpeechBalloonAsWritten
    ensures Filled(name) ==> r == GetInitials(name)
  {
    if !Filled(name) then SpeechBalloonAsWritten else GetInitials(name)
  }

  /** For a missing name the literal as written is four characters long,
      breaking the two-character bound every other result keeps, and is
      not the speech balloon the corrected `GetInitials` shows. */
  lemma MissingNameMojibake()
    ensures |GetInitialsAsWritten(None)| == 4
    ensures GetInitials(None) == SpeechBalloon && |GetInitials(None)| == 1
    ensures GetInitialsAsWritten(None) != GetInitials(None)
  {
  }

  /** A missing or empty name gives the speech balloon; a trimmed name with
      a space gives the upper-cased first letter of its first word and of
      its last word; any other name gives its first two characters,
      untrimmed, upper-cased. */
  lemma GetInitialsSpec(name: Option<string>)
    ensures !Filled(name) ==> GetInitials(name) == SpeechBalloon
    ensures Filled(name) && ' ' in Trim(name.value) ==>
      var t := Trim(name.value);
      var j := LastIndex(t, ' ');
      j + 1 < |t| && GetInitials(name) == [UpperChar(t[0]), UpperChar(t[j + 1])]
    ensures Filled(name) && ' ' !in Trim(name.value) ==> GetInitials(name) == Upper(Prefix(name.value, 2))
  {
    if Filled(name) {
      var t := Trim(name.value);
      var words := SplitOn(t, ' ');
      if ' ' in t {
        assert t[0] != ' ' && t[|t| - 1] != ' ';
        WordEnds(t);
        var j := LastIndex(t, ' ');
        var u := Upper([words[0][0], words[|words| - 1][0]]);
        assert GetInitials(name) == u;
        assert words[|words| - 1][0] == t[j + 1];
        assert |u| == 2 && u[0] == UpperChar(t[0]) && u[1] == UpperChar(t[j + 1]);
      } else {
        assert |words| < 2;
      }
    }
  }

  // ---------------------------------------------------------------------
  // Profile picture URL (lines 63-67)
  // ---------------------------------------------------------------------

  const UploadsSegment: string := "/uploads/"
  const ProfilesPath: string := "/uploads/profiles/"

  /** A truthy `profile_pic` becomes `${API_URL}/uploads/profiles/` followed
      by `profile_pic.split('/uploads/').pop()`; a falsy one is kept. */
  function RewriteProfilePic(apiUrl: string, pic: Option<string>): (r: Option<string>)
    ensures !Filled(pic) ==> r == pic
    ensures Filled(pic) ==> r.Some?
  {
    if Filled(pic) then Some(apiUrl + ProfilesPath + LastPiece(pic.value, UploadsSegment))
    else pic
  }

  /** The file name kept is a suffix of the stored path holding no
      `/uploads/`; it is the whole path when the path has none, and
      otherwise it follows an occurrence of `/uploads/`. */
  lemma RewriteProfilePicSpec(apiUrl: string, pic: string)
    requires pic != ""
    ensures RewriteProfilePic(apiUrl, Some(pic)) == Some(apiUrl + ProfilesPath + LastPiece(pic, UploadsSegment))
    ensures !Contains(LastPiece(pic, UploadsSegment), UploadsSegment)
    ensures !Contains(pic, UploadsSegment) ==> LastPiece(pic, UploadsSegment) == pic
    ensures Contains(pic, UploadsSegment) ==>
      OccursAt(pic, UploadsSegment, |pic| - |LastPiece(pic, UploadsSegment)| - |UploadsSegment|)
  {
    LastPieceSpec(pic, UploadsSegment);
  }

  /** Splitting scans left to right without overlap, so when two
      occurrences share a slash the text kept is not what follows the later
      one. */
  lemma OverlappingUploads()
    ensures LastPiece("/uploads/uploads/", UploadsSegment) == "uploads/"
  {
    var s := "/uploads/uploads/";
    assert OccursAt(s, UploadsSegment, 0);
    var t := s[|UploadsSegment|..];
    assert t == "uploads/";
    LastPieceStartSpec(t, UploadsSegment);
    assert !Contains(t, UploadsSegment);
    assert s[LastPieceStart(s, UploadsSegment)..] == t;
  }

  // ---------------------------------------------------------------------
  // Panel width (lines 34-42, 300-333)
  // ---------------------------------------------------------------------

  const MinPanelWidth := 320
  const MaxPanelWidth := 650
  const DefaultPanelWidth := 360

  /** `Math.max(320, Math.min(w, 650))`. */
  function ClampWidth(w: int): (r: int)
    ensures MinPanelWidth <= r <= MaxPanelWidth
    ensures MinPanelWidth <= w <= MaxPanelWidth ==> r == w
    ensures w < MinPanelWidth ==> r == MinPanelWidth
    ensures w > MaxPanelWidth ==> r == MaxPanelWidth
  {
    if w < MinPanelWidth then MinPanelWidth else if w > MaxPanelWidth then MaxPanelWidth else w
  }

  function Abs(x: int): nat {
    if x < 0 then -x else x
  }

  // ---------------------------------------------------------------------
  // The component
  // ---------------------------------------------------------------------

  const NewMessageHandler := Socket.Callback(11)
  const UserOnlineHandler := Socket.Callback(12)
  const UserOfflineHandler := Socket.Callback(13)

  /** How the socket effect ended. */
  datatype EffectOutcome = Subscribed | ThrewTypeError | SkippedNoUser

  class ChatHomePage {
    /** The signed-in user's id; `None` when neither navigation state nor
        storage provides one. */
    const userId: Option<int>
    var chats: seq<Chat>
    var leftPanelWidth: int
    var isResizing: bool

    /** `savedWidth` is the stored width as `parseInt` reads it, `None` when
        nothing is stored. */
    constructor (userId: Option<int>, savedWidth: Option<int>)
      ensures this.userId == userId && chats == []
      ensures leftPanelWidth == savedWidth.GetOr(DefaultPanelWidth) && !isResizing
    {
      this.userId := userId;
      chats := [];
      leftPanelWidth := savedWidth.GetOr(DefaultPanelWidth);
      isResizing := false;
    }

    method HandleUserOnline(u: int)
      requires userId.Some?
      modifies this`chats
      ensures chats == ApplyPresence(old(chats), userId.value, u, Online)
    {
      chats := ApplyPresence(chats, userId.value, u, Online);
    }

    method HandleUserOffline(u: int, lastSeen: Option<string>)
      requires userId.Some?
      modifies this`chats
      ensures chats == ApplyPresence(old(chats), userId.value, u, Offline(lastSeen))
    {
      chats := ApplyPresence(chats, userId.value, u, Offline(lastSeen));
    }

    /** The socket effect as written (lines 214-297): after connecting and
        registering `new_message`, it calls `onUserOnline`, which the
        service does not define; the call throws a TypeError, so neither
        presence handler is registered and no cleanup is returned. */
    method SubscribeAsWritten(service: Socket.SocketService, storedToken: Option<string>) returns (outcome: EffectOutcome)
      modifies service, service.socket
      ensures userId.None? || userId == Some(0) ==>
        outcome == SkippedNoUser && unchanged(service) && (service.socket != null ==> unchanged(service.socket))
      ensures userId.Some? && userId != Some(0) ==>
        && outcome == ThrewTypeError && service.socket != null
        && service.socket.listeners ==
             old(if service.socket != null && service.isConnected then service.socket.listeners else Socket.ServiceListeners)
             + [Socket.Listener("new_message", NewMessageHandler)]
        && service.isConnected == old(service.isConnected)
        && service.socket.connected == old(service.socket != null && service.isConnected && service.socket.connected)
        && service.socket.emitted == old(if service.socket != null && service.isConnected then service.socket.emitted else [])
        && (old(service.socket != null && !service.isConnected) ==> unchanged(old(service.socket)))
    {
      if userId.None? || userId == Some(0) {
        return SkippedNoUser;
      }
      var _ := service.Connect(userId, storedToken);
      service.OnNewMessage(NewMessageHandler);
      return ThrewTypeError;
    }

    /** The socket effect as intended: the presence handlers are registered
        under the event names the server sends. */
    method Subscribe(service: Socket.SocketService, storedToken: Option<string>) returns (outcome: EffectOutcome)
      modifies service, service.socket
      ensures userId.None? || userId == Some(0) ==>
        outcome == SkippedNoUser && unchanged(service) && (service.socket != null ==> unchanged(service.socket))
      ensures userId.Some? && userId != Some(0) ==>
        && outcome == Subscribed && service.socket != null
        && service.socket.listeners ==
             old(if service.socket != null && service.isConnected then service.socket.listeners else Socket.ServiceListeners)
             + [Socket.Listener("new_message", NewMessageHandler),
                Socket.Listener("user_online", UserOnlineHandler),
                Socket.Listener("user_offline", UserOfflineHandler)]
        && service.isConnected == old(service.isConnected)
        && service.socket.connected == old(service.socket != null && service.isConnected && service.socket.connected)
        && service.socket.emitted == old(if service.socket != null && service.isConnected then service.socket.emitted else [])
        && (old(service.socket != null && !service.isConnected) ==> unchanged(old(service.socket)))
    {
      if userId.None? || userId == Some(0) {
        return SkippedNoUser;
      }
      var _ := service.Connect(userId, storedToken);
      service.OnNewMessage(NewMessageHandler);
      service.On("user_online", UserOnlineHandler);
      service.On("user_offline", UserOfflineHandler);
      return Subscribed;
    }

    /** `mousedown`: a press within 5 pixels of the divider starts a drag.
        `rectLeft` is the container's left edge, `None` without a container. */
    method MouseDown(clientX: int, rectLeft: Option<int>)
      modifies this`isResizing
      ensures isResizing == (old(isResizing) || (rectLeft.Some? && Abs(clientX - (rectLeft.value + leftPanelWidth)) < 5))
    {
      if rectLeft.None? {
        return;
      }
      if Abs(clientX - (rectLeft.value + leftPanelWidth)) < 5 {
        isResizing := true;
      }
    }

    /** `mousemove`: while dragging, the width follows the pointer, clamped
        to [320, 650]; the value written to storage is returned. */
    method MouseMove(clientX: int, rectLeft: Option<int>) returns (stored: Option<int>)
      modifies this`leftPanelWidth
      ensures !isResizing || rectLeft.None? ==> leftPanelWidth == old(leftPanelWidth) && stored.None?
      ensures isResizing && rectLeft.Some? ==>
        && leftPanelWidth == ClampWidth(clientX - rectLeft.value)
        && stored == Some(leftPanelWidth)
        && MinPanelWidth <= leftPanelWidth <= MaxPanelWidth
    {
      if !isResizing || rectLeft.None? {
        return None;
      }
      var newWidth := ClampWidth(clientX - rectLeft.value);
      leftPanelWidth := newWidth;
      stored := Some(newWidth);
    }

    method MouseUp()
      modifies this`isResizing
      ensures !isResizing
    {
      isResizing := false;
    }
  }

  /** What the as-written effect leaves on a fresh service: no listener for
      `user_online` or `user_offline`, so presence is never patched. */
  method PresenceNeverRegistered(userId: int, token: Option<string>)
    returns (page: ChatHomePage, service: Socket.SocketService, outcome: EffectOutcome)
    requires userId != 0
    ensures outcome == ThrewTypeError && service.socket != null
    ensures forall l :: l in service.socket.listeners ==> l.event != "user_online" && l.event != "user_offline"
  {
    page := new ChatHomePage(Some(userId), None);
    service := new Socket.SocketService();
    outcome := page.SubscribeAsWritten(service, token);
  }
}
