/** The local state of the notifications hook of
    src/hooks/useFetchNotifications.js: the list, the unread count, the
    loading flag and the error message, and how each request's outcome
    changes them. Requests are not made here: each operation receives the
    outcome of its request as an input. */
module Notifications {
  import opened Wrappers
  import opened JsText

  /** A notification; `content` stands for the fields the hook never
      changes (type, title, body, creation time). */
  datatype Notification = Notification(id: int, isRead: bool, readAt: Option<int>, content: string)

  /** The outcome of one request: a response with `ok` and its parsed body,
      a response without `ok` (its status), or a request or body parse that
      threw (its message). */
  datatype Reply<T> = Ok(body: T) | NotOk(status: int) | Failed(message: string)

  // ---------------------------------------------------------------------
  // List updaters (lines 128-134, 162-164, 194-196)
  // ---------------------------------------------------------------------

  /** The `markAsRead` updater: the entries with that id become read at
      `now`, everything else stays. */
  function MarkRead(ns: seq<Notification>, id: int, now: int): (r: seq<Notification>)
    ensures |r| == |ns|
    ensures forall i :: 0 <= i < |ns| && ns[i].id != id ==> r[i] == ns[i]
    ensures forall i :: 0 <= i < |ns| && ns[i].id == id ==>
      r[i] == ns[i].(isRead := true, readAt := Some(now))
  {
    if ns == [] then []
    else
      var head := if ns[0].id == id then ns[0].(isRead := true, readAt := Some(now)) else ns[0];
      [head] + MarkRead(ns[1..], id, now)
  }

  /** The `markAllAsRead` updater. */
  function MarkAllRead(ns: seq<Notification>, now: int): (r: seq<Notification>)
    ensures |r| == |ns|
    ensures forall i :: 0 <= i < |ns| ==> r[i] == ns[i].(isRead := true, readAt := Some(now))
  {
    if ns == [] then [] else [ns[0].(isRead := true, readAt := Some(now))] + MarkAllRead(ns[1..], now)
  }

  /** The `deleteNotification` updater: the entries with that id go, the
      others stay in order. */
  function Delete(ns: seq<Notification>, id: int): (r: seq<Notification>)
    ensures forall n :: n in r <==> n in ns && n.id != id
    ensures |r| <= |ns|
  {
    if ns == [] then []
    else
      var rest := Delete(ns[1..], id);
      if ns[0].id == id then rest
      else
        assert forall n :: n in [ns[0]] + rest <==> n == ns[0] || n in rest;
        [ns[0]] + rest
  }

  /** The number of unread entries. */
  function UnreadIn(ns: seq<Notification>): (k: nat)
    ensures k <= |ns|
  {
    if ns == [] then 0 else (if ns[0].isRead then 0 else 1) + UnreadIn(ns[1..])
  }

  lemma {:induction false} DeleteAppend(a: seq<Notification>, b: seq<Notification>, id: int)
    ensures Delete(a + b, id) == Delete(a, id) + Delete(b, id)
  {
    if a == [] {
      assert a + b == b;
    } else {
      var ab := a + b;
      assert ab != [] && ab[0] == a[0] && ab[1..] == a[1..] + b;
      DeleteAppend(a[1..], b, id);
    }
  }

  /** Deleting keeps every other entry in its place. */
  lemma DeleteKeepsOthers(before: seq<Notification>, n: Notification, after: seq<Notification>, id: int)
    requires n.id != id
    ensures Delete(before + [n] + after, id) == Delete(before, id) + [n] + Delete(after, id)
  {
    DeleteAppend(before + [n], after, id);
    DeleteAppend(before, [n], id);
  }

  /** After marking every entry read, none is unread. */
  lemma {:induction false} MarkAllReadLeavesNoneUnread(ns: seq<Notification>, now: int)
    ensures UnreadIn(MarkAllRead(ns, now)) == 0
  {
    if ns != [] {
      MarkAllReadLeavesNoneUnread(ns[1..], now);
      assert MarkAllRead(ns, now)[1..] == MarkAllRead(ns[1..], now);
    }
  }

  /** Marking one id read leaves as many unread entries as deleting that id
      would: exactly the unread entries of the other ids. */
  lemma {:induction false} MarkReadUnreadLikeDelete(ns: seq<Notification>, id: int, now: int)
    ensures UnreadIn(MarkRead(ns, id, now)) == UnreadIn(Delete(ns, id))
  {
    if ns != [] {
      MarkReadUnreadLikeDelete(ns[1..], id, now);
      assert MarkRead(ns, id, now)[1..] == MarkRead(ns[1..], id, now);
      if ns[0].id != id {
        assert ([ns[0]] + Delete(ns[1..], id))[1..] == Delete(ns[1..], id);
      }
    }
  }

  /** Deleting an id makes any earlier marking of it irrelevant. */
  lemma {:induction false} DeleteAfterMarkRead(ns: seq<Notification>, id: int, now: int)
    ensures Delete(MarkRead(ns, id, now), id) == Delete(ns, id)
  {
    if ns != [] {
      DeleteAfterMarkRead(ns[1..], id, now);
      assert MarkRead(ns, id, now)[1..] == MarkRead(ns[1..], id, now);
    }
  }

  /** Marking all read after marking one read is marking all read. */
  lemma MarkAllAfterMarkRead(ns: seq<Notification>, id: int, now: int, later: int)
    ensures MarkAllRead(MarkRead(ns, id, now), later) == MarkAllRead(ns, later)
  {
  }

  /** `results.filter(r => r && r.ok).length`: a single reply counts one
      exactly when it is ok, and nothing counts when no reply is ok. */
  function SuccessCount<T>(replies: seq<Reply<T>>): (k: nat)
    ensures k <= |replies|
    ensures |replies| == 1 ==> (k == 1 <==> replies[0].Ok?)
    ensures k == 0 <==> forall i :: 0 <= i < |replies| ==> !replies[i].Ok?
  {
    if replies == [] then 0 else (if replies[0].Ok? then 1 else 0) + SuccessCount(replies[1..])
  }

  /** The count of a concatenation is the sum of the counts: with the
      one-reply case, each ok reply counts one and nothing else counts. */
  lemma {:induction false} SuccessCountAppend<T>(a: seq<Reply<T>>, b: seq<Reply<T>>)
    ensures SuccessCount(a + b) == SuccessCount(a) + SuccessCount(b)
  {
    if a == [] {
      assert a + b == b;
    } else {
      var ab := a + b;
      assert ab[0] == a[0] && ab[1..] == a[1..] + b;
      SuccessCountAppend(a[1..], b);
    }
  }

  /** Every reply counts exactly when all of them are `ok`. */
  lemma {:induction false} SuccessCountAll<T>(replies: seq<Reply<T>>)
    ensures SuccessCount(replies) == |replies| <==> forall i :: 0 <= i < |replies| ==> replies[i].Ok?
  {
    if replies != [] {
      SuccessCountAll(replies[1..]);
      assert forall i :: 1 <= i < |replies| ==> replies[i] == replies[1..][i - 1];
    }
  }

  /** The unread count a successful count request yields:
      `data.unread_count || 0`. */
  function CountFrom(unreadCount: Option<int>): int {
    unreadCount.GetOr(0)
  }

  // ---------------------------------------------------------------------
  // The hook
  // ---------------------------------------------------------------------

  class NotificationsHook {
    const token: Option<string>
    var notifications: seq<Notification>
    var unreadCount: int
    var isLoading: bool
    var error: Option<string>

    constructor (token: Option<string>)
      ensures this.token == token
      ensures notifications == [] && unreadCount == 0 && !isLoading && error.None?
    {
      this.token := token;
      notifications := [];
      unreadCount := 0;
      isLoading := false;
      error := None;
    }

    /** `fetchNotifications` (lines 10-58). Without a token nothing changes.
        Otherwise loading ends false; an ok reply installs `data.data` (or
        the empty list) and clears the error; a non-ok reply empties the
        list; a thrown request empties the list and records its message. */
    method FetchNotifications(reply: Reply<Option<seq<Notification>>>)
      modifies this`notifications, this`isLoading, this`error
      ensures !Filled(token) ==>
        notifications == old(notifications) && isLoading == old(isLoading) && error == old(error)
      ensures Filled(token) ==> !isLoading
      ensures Filled(token) && reply.Ok? ==> notifications == reply.body.GetOr([]) && error.None?
      ensures Filled(token) && reply.NotOk? ==> notifications == [] && error == old(error)
      ensures Filled(token) && reply.Failed? ==> notifications == [] && error == Some(reply.message)
      ensures unreadCount == old(unreadCount)
    {
      if !Filled(token) {
        return;
      }
      isLoading := true;
      match reply {
        case Ok(data) =>
          notifications := data.GetOr([]);
          error := None;
        case NotOk(_) =>
          notifications := [];
        case Failed(message) =>
          error := Some(message);
          notifications := [];
      }
      isLoading := false;
    }

    /** `fetchUnreadCount` (lines 60-108). Without a token nothing changes;
        an ok reply gives `unread_count` or 0; anything else gives 0. */
    method FetchUnreadCount(reply: Reply<Option<int>>)
      modifies this`unreadCount
      ensures !Filled(token) ==> unreadCount == old(unreadCount)
      ensures Filled(token) ==> unreadCount == if reply.Ok? then CountFrom(reply.body) else 0
    {
      if !Filled(token) {
        return;
      }
      match reply
      case Ok(count) =>
        unreadCount := CountFrom(count);
      case NotOk(_) =>
        unreadCount := 0;
      case Failed(_) =>
        unreadCount := 0;
    }

    /** `markAsRead(id)` (lines 110-142): on an ok reply the entries with
        that id are marked read at `now` and the count is fetched again;
        otherwise the thrown error is caught and nothing changes. */
    method MarkAsRead(id: int, reply: Reply<()>, now: int, countReply: Reply<Option<int>>)
      modifies this`notifications, this`unreadCount
      ensures !reply.Ok? ==> notifications == old(notifications) && unreadCount == old(unreadCount)
      ensures reply.Ok? ==> notifications == MarkRead(old(notifications), id, now)
      ensures reply.Ok? && Filled(token) ==>
        unreadCount == if countReply.Ok? then CountFrom(countReply.body) else 0
      ensures reply.Ok? && !Filled(token) ==> unreadCount == old(unreadCount)
    {
      if !reply.Ok? {
        return;
      }
      notifications := MarkRead(notifications, id, now);
      FetchUnreadCount(countReply);
    }

    /** `markAllAsRead` (lines 144-175). */
    method MarkAllAsRead(reply: Reply<()>, now: int)
      modifies this`notifications, this`unreadCount
      ensures !reply.Ok? ==> notifications == old(notifications) && unreadCount == old(unreadCount)
      ensures reply.Ok? ==> notifications == MarkAllRead(old(notifications), now) && unreadCount == 0
      ensures reply.Ok? ==> UnreadIn(notifications) == unreadCount
    {
      if !reply.Ok? {
        return;
      }
      notifications := MarkAllRead(notifications, now);
      unreadCount := 0;
      MarkAllReadLeavesNoneUnread(old(notifications), now);
    }

    /** `deleteNotification(id)` (lines 177-203). */
    method DeleteNotification(id: int, reply: Reply<()>, countReply: Reply<Option<int>>)
      modifies this`notifications, this`unreadCount
      ensures !reply.Ok? ==> notifications == old(notifications) && unreadCount == old(unreadCount)
      ensures reply.Ok? ==> notifications == Delete(old(notifications), id)
      ensures reply.Ok? && Filled(token) ==>
        unreadCount == if countReply.Ok? then CountFrom(countReply.body) else 0
      ensures reply.Ok? && !Filled(token) ==> unreadCount == old(unreadCount)
    {
      if !reply.Ok? {
        return;
      }
      notifications := Delete(notifications, id);
      FetchUnreadCount(countReply);
    }

    /** `clearAllNotifications` (lines 205-243), given the outcome of the
        delete request sent for each entry. On an empty list it does
        nothing; otherwise the list and the count are cleared whatever the
        deletes returned, and the number of ok replies is reported. */
    method ClearAll(replies: seq<Reply<()>>) returns (successCount: Option<nat>)
      requires |replies| == |notifications|
      modifies this`notifications, this`unreadCount
      ensures old(notifications) == [] ==>
        successCount.None? && notifications == [] && unreadCount == old(unreadCount)
      ensures old(notifications) != [] ==>
        successCount == Some(SuccessCount(replies)) && notifications == [] && unreadCount == 0
    {
      if |notifications| == 0 {
        return None;
      }
      successCount := Some(SuccessCount(replies));
      notifications := [];
      unreadCount := 0;
    }
  }
}
