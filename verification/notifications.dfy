/**
 The notification handlers of social_media_api/notifications/views.py: listing the
 requester's unread notifications and marking one of them read.
 */
module Notifications {
  import opened Identity
  import opened SocialState
  import Ordering

  /** One entry of the unread listing: the only two columns it exposes. */
  datatype Entry = Entry(verb: string, createdAt: Time)

  /**
   `NotificationListView.get`: the requester's notifications that are still unread,
   each once, newest first. `rows` is the ordered query result and `data` its
   projection onto verb and creation time, entry by entry.
   */
  method ListUnread(st: State, requester: UserId) returns (rows: seq<NotificationId>, data: seq<Entry>)
    ensures forall id :: id in rows <==>
      id in st.notifications && st.notifications[id].recipient == requester && !st.notifications[id].read
    ensures Ordering.Distinct(rows)
    ensures forall i, j :: 0 <= i < j < |rows| ==>
      st.notifications[rows[i]].createdAt >= st.notifications[rows[j]].createdAt
    ensures |data| == |rows|
    ensures forall i :: 0 <= i < |rows| ==>
      data[i] == Entry(st.notifications[rows[i]].verb, st.notifications[rows[i]].createdAt)
  {
    var unread := UnreadIds(st, requester);
    assert forall id :: id in unread <==>
      id in st.notifications && st.notifications[id].recipient == requester && !st.notifications[id].read;
    var stamp := (id: NotificationId) => if id in st.notifications then st.notifications[id].createdAt else 0;
    rows := Ordering.NewestFirstOf(unread, stamp);
    assert forall i :: 0 <= i < |rows| ==>
      rows[i] in st.notifications && stamp(rows[i]) == st.notifications[rows[i]].createdAt;
    data := [];
    var k := 0;
    while k < |rows|
      invariant 0 <= k <= |rows|
      invariant |data| == k
      invariant forall i :: 0 <= i < k ==>
        data[i] == Entry(st.notifications[rows[i]].verb, st.notifications[rows[i]].createdAt)
    {
      var n := st.notifications[rows[k]];
      data := data + [Entry(n.verb, n.createdAt)];
      k := k + 1;
    }
  }

  /**
   `MarkNotificationReadView.post`. The notification is looked up by its id AND the
   requester as recipient, so another user's notification gives the same 404 as an id
   that does not exist. On a match its read flag is set and it is saved; nothing else
   changes, and marking a notification that is already read succeeds again.
   */
  function MarkRead(st: State, requester: UserId, id: NotificationId): (s: Step<()>)
    ensures s.reply.Ok? <==> id in st.notifications && st.notifications[id].recipient == requester
    ensures s.reply.Err? ==> s == Step(Err(NotificationNotFound, NotFound), st)
    ensures s.state.notifications.Keys == st.notifications.Keys
    ensures s.reply.Ok? ==> s.state.notifications[id] == st.notifications[id].(read := true)
    ensures forall other :: other in st.notifications && other != id ==>
      s.state.notifications[other] == st.notifications[other]
    ensures s.state.(notifications := st.notifications) == st
  {
    if id in st.notifications && st.notifications[id].recipient == requester then
      Step(Ok(()), st.(notifications := st.notifications[id := st.notifications[id].(read := true)]))
    else
      Step(Err(NotificationNotFound, NotFound), st)
  }

  /** Marking twice leaves the same state as marking once, and both calls succeed alike. */
  lemma MarkReadIdempotent(st: State, requester: UserId, id: NotificationId)
    ensures var s1 := MarkRead(st, requester, id);
      MarkRead(s1.state, requester, id) == s1
  {
  }

  /**
   Another user's notification is answered exactly as if the id did not exist, so the
   reply tells nothing about it, and the state is untouched.
   */
  lemma ForeignLooksAbsent(st: State, requester: UserId, id: NotificationId)
    requires id in st.notifications && st.notifications[id].recipient != requester
    ensures var absent := st.(notifications := st.notifications - {id});
      && MarkRead(st, requester, id).reply == MarkRead(absent, requester, id).reply
      && MarkRead(st, requester, id).state == st
  {
  }

  /**
   A successful MarkRead takes exactly that notification off the requester's unread
   list and leaves every user's other unread entries as they were.
   */
  lemma MarkReadLeavesUnread(st: State, requester: UserId, id: NotificationId, u: UserId)
    requires MarkRead(st, requester, id).reply.Ok?
    ensures var st1 := MarkRead(st, requester, id).state;
      && id !in UnreadIds(st1, requester)
      && UnreadIds(st1, u) == UnreadIds(st, u) - {id}
  {
  }

  /** MarkRead only lets notifications evolve: nothing is deleted and `created_at` is kept. */
  lemma MarkReadEvolves(st: State, requester: UserId, id: NotificationId)
    ensures NotificationsEvolve(st, MarkRead(st, requester, id).state)
  {
  }

  lemma MarkReadPreservesValid(st: State, requester: UserId, id: NotificationId)
    requires Valid(st)
    ensures Valid(MarkRead(st, requester, id).state)
  {
  }
}
