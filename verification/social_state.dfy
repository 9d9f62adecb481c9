/**
 The state of the social-media API as the request handlers see it: users, posts,
 comments, the follow relation, the like relation and the notification table, plus
 the next auto-increment key of each table. Every handler is a pure transition from
 a state, the authenticated requester and the request's arguments to a reply and a
 new state.
 */
module SocialState {
  import opened Results
  import opened Identity
  import opened NotificationRecords

  /**
   A post. `author` is the column every handler compares with the requester. `user` is
   the separate attribute that Like reads for the notification's recipient
   (social_media_api/posts/views.py:61); posts/models.py is not part of this model,
   so whether a post has that attribute is left open: `None` stands for a post on
   which reading it raises.
   */
  datatype Post = Post(author: UserId, user: Option<UserId>, title: string, content: string, createdAt: Time)

  datatype Comment = Comment(post: PostId, author: UserId, content: string, createdAt: Time)

  datatype State = State(
    users: set<UserId>,
    posts: map<PostId, Post>,
    nextPost: PostId,
    comments: map<CommentId, Comment>,
    nextComment: CommentId,
    follows: set<(UserId, UserId)>,     // (follower, followee)
    likes: set<(UserId, PostId)>,       // (user, post)
    notifications: map<NotificationId, Notification>,
    nextNotification: NotificationId)

  /** Why a handler refused; each handler's own branch picks the reason and the status. */
  datatype Reason =
    | UserNotFound
    | SelfFollow
    | AlreadyFollowing
    | NotFollowing
    | PostNotFound
    | SelfLike
    | AlreadyLiked
    | SelfUnlike
    | NotLiked
    | NotificationNotFound
    | RecipientMissing   // reading `post.user` raised after the like was stored

  const BadRequest: nat := 400
  const Forbidden: nat := 403
  const NotFound: nat := 404
  const ServerError: nat := 500

  datatype Reply<+T> = Ok(value: T) | Err(reason: Reason, status: nat)

  datatype Step<+T> = Step(reply: Reply<T>, state: State)

  /** The users `u` follows: `request.user.following.all()`. */
  function FollowingOf(st: State, u: UserId): set<UserId> {
    set e | e in st.follows && e.0 == u :: e.1
  }

  /** The ids of the notifications addressed to `u` that are still unread. */
  function UnreadIds(st: State, u: UserId): set<NotificationId> {
    set id | id in st.notifications && st.notifications[id].recipient == u && !st.notifications[id].read
  }

  /**
   The invariant every handler keeps: edges join existing rows, nobody follows
   themselves, nobody likes their own post, every row's key is below its table's next
   key, and every notification is well-formed and names existing users.
   */
  predicate Valid(st: State) {
    && (forall e :: e in st.follows ==> e.0 in st.users && e.1 in st.users && e.0 != e.1)
    && (forall e :: e in st.likes ==> e.0 in st.users && e.1 in st.posts && st.posts[e.1].author != e.0)
    && (forall p :: p in st.posts ==> p < st.nextPost && PostValid(st, st.posts[p]))
    && (forall c :: c in st.comments ==> c < st.nextComment && st.comments[c].author in st.users)
    && NotificationKeysBelowNext(st)
    && (forall n :: n in st.notifications ==> NotificationValid(st, st.notifications[n]))
  }

  /** Every notification key is below the next one handed out, so a new row never overwrites. */
  predicate NotificationKeysBelowNext(st: State) {
    forall n :: n in st.notifications ==> n < st.nextNotification
  }

  predicate PostValid(st: State, p: Post) {
    p.author in st.users && (p.user.Some? ==> p.user.value in st.users)
  }

  predicate NotificationValid(st: State, n: Notification) {
    WellFormed(n) && n.recipient in st.users && n.actor in st.users
  }

  /**
   How the notification table may change from one state to a later one: no row is
   deleted and each surviving row only evolves (its read flag may go to true).
   */
  predicate NotificationsEvolve(st: State, st': State) {
    && st.notifications.Keys <= st'.notifications.Keys
    && (forall n :: n in st.notifications ==> Evolves(st.notifications[n], st'.notifications[n]))
    && st.nextNotification <= st'.nextNotification
  }

  lemma NotificationsEvolveTransitive(st1: State, st2: State, st3: State)
    requires NotificationsEvolve(st1, st2) && NotificationsEvolve(st2, st3)
    ensures NotificationsEvolve(st1, st3)
  {
    forall n | n in st1.notifications
      ensures Evolves(st1.notifications[n], st3.notifications[n])
    {
      EvolvesTransitive(st1.notifications[n], st2.notifications[n], st3.notifications[n]);
    }
  }
}
