/**
 The modelled handlers of the social-media API as one state machine: each request
 one of them serves, applied to the state in turn. Properties of single handlers
 lift here to every modelled request and to every sequence of them. The viewsets'
 update and destroy actions are not among the requests.
 */
module SocialApi {
  import opened Identity
  import opened SocialState
  import Accounts
  import Posts
  import Notifications

  datatype Request =
    | FollowUser(target: UserId)
    | UnfollowUser(target: UserId)
    | CreatePost(post: Posts.PostDraft)
    | CreateComment(comment: Posts.CommentDraft)
    | LikePost(pk: PostId)
    | UnlikePost(pk: PostId)
    | MarkNotificationRead(id: NotificationId)

  /** One authenticated request, with the time the server handled it. */
  datatype Call = Call(requester: UserId, request: Request, now: Time)

  /** The state after serving `c`, whatever the reply. */
  function Apply(st: State, c: Call): State {
    match c.request
    case FollowUser(target) => Accounts.Follow(st, c.requester, target).state
    case UnfollowUser(target) => Accounts.Unfollow(st, c.requester, target).state
    case CreatePost(d) => Posts.CreatePost(st, c.requester, d, c.now).state
    case CreateComment(d) => Posts.CreateComment(st, c.requester, d, c.now).state
    case LikePost(pk) => Posts.Like(st, c.requester, pk, c.now).state
    case UnlikePost(pk) => Posts.Unlike(st, c.requester, pk).state
    case MarkNotificationRead(id) => Notifications.MarkRead(st, c.requester, id).state
  }

  /** The states reached by serving `calls` in order. */
  function Run(st: State, calls: seq<Call>): State
    decreases |calls|
  {
    if calls == [] then st else Run(Apply(st, calls[0]), calls[1..])
  }

  /**
   What authentication and request validation guarantee before a handler runs: the
   requester is a user, and a new post's `user` attribute names a user.
   */
  predicate Admissible(users: set<UserId>, c: Call) {
    && c.requester in users
    && (c.request.CreatePost? && c.request.post.user.Some? ==> c.request.post.user.value in users)
  }

  /** No handler adds or removes users. */
  lemma ApplyKeepsUsers(st: State, c: Call)
    ensures Apply(st, c).users == st.users
  {
  }

  lemma ApplyPreservesValid(st: State, c: Call)
    requires Valid(st) && Admissible(st.users, c)
    ensures Valid(Apply(st, c))
  {
    match c.request
    case FollowUser(target) => Accounts.FollowPreservesValid(st, c.requester, target);
    case UnfollowUser(target) => Accounts.UnfollowPreservesValid(st, c.requester, target);
    case CreatePost(d) => Posts.CreatePostPreservesValid(st, c.requester, d, c.now);
    case CreateComment(d) => Posts.CreateCommentPreservesValid(st, c.requester, d, c.now);
    case LikePost(pk) => Posts.LikePreservesValid(st, c.requester, pk, c.now);
    case UnlikePost(pk) => Posts.UnlikePreservesValid(st, c.requester, pk);
    case MarkNotificationRead(id) => Notifications.MarkReadPreservesValid(st, c.requester, id);
  }

  lemma ApplyEvolvesNotifications(st: State, c: Call)
    requires NotificationKeysBelowNext(st)
    ensures NotificationsEvolve(st, Apply(st, c))
    ensures NotificationKeysBelowNext(Apply(st, c))
  {
    match c.request
    case MarkNotificationRead(id) => Notifications.MarkReadEvolves(st, c.requester, id);
    case _ =>
  }

  /** Only a like creates notifications; every other request leaves the table's keys alone. */
  lemma OnlyLikeNotifies(st: State, c: Call)
    requires !c.request.LikePost?
    ensures Apply(st, c).notifications.Keys == st.notifications.Keys
    ensures Apply(st, c).nextNotification == st.nextNotification
  {
  }

  /** A notification's read flag is only ever set by its recipient marking it read. */
  lemma OnlyRecipientMarksRead(st: State, c: Call, id: NotificationId)
    requires NotificationKeysBelowNext(st)
    requires id in st.notifications && !st.notifications[id].read
    requires Apply(st, c).notifications[id].read
    ensures c.request == MarkNotificationRead(id)
    ensures c.requester == st.notifications[id].recipient
  {
  }

  /** Every sequence of admissible requests keeps the invariant. */
  lemma {:induction false} RunPreservesValid(st: State, calls: seq<Call>)
    requires Valid(st)
    requires forall i :: 0 <= i < |calls| ==> Admissible(st.users, calls[i])
    ensures Valid(Run(st, calls))
    decreases |calls|
  {
    if calls != [] {
      ApplyPreservesValid(st, calls[0]);
      ApplyKeepsUsers(st, calls[0]);
      var rest := calls[1..];
      assert forall i :: 0 <= i < |rest| ==> rest[i] == calls[i + 1];
      RunPreservesValid(Apply(st, calls[0]), rest);
    }
  }

  /**
   Over any sequence of requests no notification is deleted, none changes anything
   but its read flag, and no read flag goes back to false.
   */
  lemma {:induction false} RunEvolvesNotifications(st: State, calls: seq<Call>)
    requires NotificationKeysBelowNext(st)
    ensures NotificationsEvolve(st, Run(st, calls))
    decreases |calls|
  {
    if calls != [] {
      var st1 := Apply(st, calls[0]);
      ApplyEvolvesNotifications(st, calls[0]);
      RunEvolvesNotifications(st1, calls[1..]);
      NotificationsEvolveTransitive(st, st1, Run(st1, calls[1..]));
    }
  }

  /**
   Over any sequence of requests, a notification that was unread and ends up read was
   marked by one of the calls: MarkRead of that id, sent by its recipient.
   */
  lemma {:induction false} RunOnlyRecipientMarksRead(st: State, calls: seq<Call>, id: NotificationId)
    requires NotificationKeysBelowNext(st)
    requires id in st.notifications && !st.notifications[id].read
    requires id in Run(st, calls).notifications && Run(st, calls).notifications[id].read
    ensures exists i ::
      && 0 <= i < |calls|
      && calls[i].request == MarkNotificationRead(id)
      && calls[i].requester == st.notifications[id].recipient
    decreases |calls|
  {
    if calls == [] {
      assert false;
    } else {
      var st1 := Apply(st, calls[0]);
      ApplyEvolvesNotifications(st, calls[0]);
      if st1.notifications[id].read {
        OnlyRecipientMarksRead(st, calls[0], id);
      } else {
        RunOnlyRecipientMarksRead(st1, calls[1..], id);
        var i :| 0 <= i < |calls[1..]| &&
          calls[1..][i].request == MarkNotificationRead(id) && calls[1..][i].requester == st1.notifications[id].recipient;
        assert calls[i + 1] == calls[1..][i];
      }
    }
  }
}
