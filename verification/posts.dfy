/**
 The post handlers of social_media_api/posts/views.py: author stamping on create,
 the feed, and liking and unliking with the notification a like sends.
 */
module Posts {
  import opened Results
  import opened Identity
  import opened NotificationRecords
  import opened SocialState
  import Ordering
  import Accounts

  /** The verb of the notification a like sends. */
  const LikeVerb: string := "liked your post"

  /** The content type a `Post` target is recorded under. */
  const PostContentType: ContentType := ContentType("posts", "post")

  /**
   What the post serializer validated from the request body. `author` is whatever the
   client submitted for it, if anything.
   */
  datatype PostDraft = PostDraft(author: Option<UserId>, user: Option<UserId>, title: string, content: string)

  datatype CommentDraft = CommentDraft(author: Option<UserId>, post: PostId, content: string)

  /**
   `PostViewSet.perform_create`: the new post is saved with `author = request.user`,
   whatever author the request carried, under the next post key.
   */
  function CreatePost(st: State, requester: UserId, draft: PostDraft, now: Time): (s: Step<PostId>)
    ensures s.reply == Ok(st.nextPost)
    ensures s.state.posts.Keys == st.posts.Keys + {st.nextPost}
    ensures forall p :: p in st.posts && p != st.nextPost ==> s.state.posts[p] == st.posts[p]
    ensures var p := s.state.posts[st.nextPost];
      && p.author == requester
      && p.user == draft.user && p.title == draft.title && p.content == draft.content
      && p.createdAt == now
    ensures s.state.nextPost == st.nextPost + 1
    ensures s.state.(posts := st.posts, nextPost := st.nextPost) == st
  {
    var post := Post(requester, draft.user, draft.title, draft.content, now);
    Step(Ok(st.nextPost), st.(posts := st.posts[st.nextPost := post], nextPost := st.nextPost + 1))
  }

  /** `CommentViewSet.perform_create`: the same author stamping for comments. */
  function CreateComment(st: State, requester: UserId, draft: CommentDraft, now: Time): (s: Step<CommentId>)
    ensures s.reply == Ok(st.nextComment)
    ensures s.state.comments.Keys == st.comments.Keys + {st.nextComment}
    ensures forall c :: c in st.comments && c != st.nextComment ==> s.state.comments[c] == st.comments[c]
    ensures var c := s.state.comments[st.nextComment];
      c.author == requester && c.post == draft.post && c.content == draft.content && c.createdAt == now
    ensures s.state.nextComment == st.nextComment + 1
    ensures s.state.(comments := st.comments, nextComment := st.nextComment) == st
  {
    var comment := Comment(draft.post, requester, draft.content, now);
    Step(Ok(st.nextComment), st.(comments := st.comments[st.nextComment := comment], nextComment := st.nextComment + 1))
  }

  /** The submitted author never matters: only the requester is stamped. */
  lemma CreateIgnoresSubmittedAuthor(st: State, requester: UserId, d: PostDraft, c: CommentDraft,
                                     other: Option<UserId>, now: Time)
    ensures CreatePost(st, requester, d, now) == CreatePost(st, requester, d.(author := other), now)
    ensures CreateComment(st, requester, c, now) == CreateComment(st, requester, c.(author := other), now)
  {
  }

  /** The posts the feed of `u` shows: those whose author `u` follows. */
  function FeedPosts(st: State, u: UserId): set<PostId> {
    set p | p in st.posts && st.posts[p].author in FollowingOf(st, u)
  }

  /**
   `FeedView.get`: every post by a followed user, each once, newest first. Following
   nobody gives an empty feed rather than an error.
   */
  method Feed(st: State, requester: UserId) returns (feed: seq<PostId>)
    ensures forall p :: p in feed <==> p in st.posts && st.posts[p].author in FollowingOf(st, requester)
    ensures Ordering.Distinct(feed)
    ensures forall i, j :: 0 <= i < j < |feed| ==> st.posts[feed[i]].createdAt >= st.posts[feed[j]].createdAt
    ensures FollowingOf(st, requester) == {} ==> feed == []
  {
    assert forall p :: p in FeedPosts(st, requester) <==>
      p in st.posts && st.posts[p].author in FollowingOf(st, requester);
    var stamp := (p: PostId) => if p in st.posts then st.posts[p].createdAt else 0;
    feed := Ordering.NewestFirstOf(FeedPosts(st, requester), stamp);
    assert forall i :: 0 <= i < |feed| ==> feed[i] in st.posts && stamp(feed[i]) == st.posts[feed[i]].createdAt;
    assert feed != [] ==> feed[0] in FeedPosts(st, requester);
  }

  /**
   `LikePostView.post`. The post must exist (404), must not be the requester's own
   (400) and must not be liked by the requester yet (400). The like row is then
   stored. The notification goes to the post's `user`, not its `author`; when reading
   that attribute raises, the request fails with 500 and the stored like stays
   without any notification, as the two writes do not share a transaction. Otherwise
   exactly one unread notification is created under the next key and its key is
   returned.
   */
  function Like(st: State, requester: UserId, pk: PostId, now: Time): (s: Step<NotificationId>)
    ensures pk !in st.posts ==> s == Step(Err(PostNotFound, NotFound), st)
    ensures pk in st.posts && st.posts[pk].author == requester ==> s == Step(Err(SelfLike, BadRequest), st)
    ensures pk in st.posts && st.posts[pk].author != requester && (requester, pk) in st.likes ==>
      s == Step(Err(AlreadyLiked, BadRequest), st)
    ensures s.reply.Ok? <==>
      pk in st.posts && st.posts[pk].author != requester && (requester, pk) !in st.likes && st.posts[pk].user.Some?
    ensures s.reply == Err(RecipientMissing, ServerError) <==>
      pk in st.posts && st.posts[pk].author != requester && (requester, pk) !in st.likes && st.posts[pk].user.None?
    // the like is stored exactly when every guard passed
    ensures forall e :: e in s.state.likes <==>
      e in st.likes || ((s.reply.Ok? || s.reply.reason == RecipientMissing) && e == (requester, pk))
    ensures s.reply.Ok? ==>
      && s.reply.value == st.nextNotification
      && s.state.notifications.Keys == st.notifications.Keys + {s.reply.value}
      && (forall id :: id in st.notifications && id != s.reply.value ==>
            s.state.notifications[id] == st.notifications[id])
      && s.state.nextNotification == st.nextNotification + 1
    ensures s.reply.Ok? ==>
      var n := s.state.notifications[s.reply.value];
      && n.recipient == st.posts[pk].user.value
      && n.actor == requester
      && n.verb == LikeVerb
      && n.targetType == Some(PostContentType) && n.targetId == Some(pk)
      && n.createdAt == now
      && !n.read
    ensures s.reply.Err? ==> s.state.notifications == st.notifications && s.state.nextNotification == st.nextNotification
    ensures s.state.(likes := st.likes, notifications := st.notifications, nextNotification := st.nextNotification) == st
  {
    if pk !in st.posts then Step(Err(PostNotFound, NotFound), st)
    else
      var post := st.posts[pk];
      if requester == post.author then Step(Err(SelfLike, BadRequest), st)
      else if (requester, pk) in st.likes then Step(Err(AlreadyLiked, BadRequest), st)
      else
        var liked := st.(likes := st.likes + {(requester, pk)});
        match post.user
        case None => Step(Err(RecipientMissing, ServerError), liked)
        case Some(recipient) =>
          var id := st.nextNotification;
          var n := Create(recipient, requester, LikeVerb, Some((PostContentType, pk)), now);
          Step(Ok(id), liked.(notifications := st.notifications[id := n], nextNotification := id + 1))
  }

  /**
   `UnlikePostView.post`. The post must exist (404) and must not be the requester's own
   (400), checked before any like lookup; then the requester's like must exist (400)
   and is deleted. No notification is ever touched.
   */
  function Unlike(st: State, requester: UserId, pk: PostId): (s: Step<()>)
    ensures pk !in st.posts ==> s == Step(Err(PostNotFound, NotFound), st)
    ensures pk in st.posts && st.posts[pk].author == requester ==> s == Step(Err(SelfUnlike, BadRequest), st)
    ensures pk in st.posts && st.posts[pk].author != requester && (requester, pk) !in st.likes ==>
      s == Step(Err(NotLiked, BadRequest), st)
    ensures s.reply.Ok? <==> pk in st.posts && st.posts[pk].author != requester && (requester, pk) in st.likes
    ensures forall e :: e in s.state.likes <==> e in st.likes && !(s.reply.Ok? && e == (requester, pk))
    ensures s.reply.Ok? ==> |s.state.likes| == |st.likes| - 1
    ensures s.state.notifications == st.notifications
    ensures s.state.(likes := st.likes) == st
  {
    if pk !in st.posts then Step(Err(PostNotFound, NotFound), st)
    else if requester == st.posts[pk].author then Step(Err(SelfUnlike, BadRequest), st)
    else if (requester, pk) !in st.likes then Step(Err(NotLiked, BadRequest), st)
    else Step(Ok(()), st.(likes := st.likes - {(requester, pk)}))
  }

  /** In a valid state a successful like adds exactly one row to the notification table. */
  lemma LikeCreatesOneNotification(st: State, requester: UserId, pk: PostId, now: Time)
    requires Valid(st)
    requires Like(st, requester, pk, now).reply.Ok?
    ensures var st1 := Like(st, requester, pk, now).state;
      && |st1.notifications| == |st.notifications| + 1
      && |st1.likes| == |st.likes| + 1
  {
  }

  /**
   Liking twice: the second call is refused, and across both calls exactly one like
   and one notification were created.
   */
  lemma LikeTwice(st: State, requester: UserId, pk: PostId, now1: Time, now2: Time)
    requires NotificationKeysBelowNext(st)
    requires Like(st, requester, pk, now1).reply.Ok?
    ensures var st1 := Like(st, requester, pk, now1).state;
      && Like(st1, requester, pk, now2) == Step(Err(AlreadyLiked, BadRequest), st1)
      && st1.likes == st.likes + {(requester, pk)}
      && st1.notifications.Keys == st.notifications.Keys + {st.nextNotification}
      && |st1.notifications| == |st.notifications| + 1
  {
  }

  /**
   Unlike after a successful Like restores the like relation but keeps the
   notification the like sent.
   */
  lemma LikeThenUnlike(st: State, requester: UserId, pk: PostId, now: Time)
    requires Like(st, requester, pk, now).reply.Ok?
    ensures var s1 := Like(st, requester, pk, now);
      var s2 := Unlike(s1.state, requester, pk);
      && s2.reply.Ok?
      && s2.state.likes == st.likes
      && s2.state.notifications == s1.state.notifications
      && s1.reply.value in s2.state.notifications
  {
  }

  lemma LikePreservesValid(st: State, requester: UserId, pk: PostId, now: Time)
    requires Valid(st) && requester in st.users
    ensures Valid(Like(st, requester, pk, now).state)
  {
  }

  lemma UnlikePreservesValid(st: State, requester: UserId, pk: PostId)
    requires Valid(st)
    ensures Valid(Unlike(st, requester, pk).state)
  {
  }

  lemma CreatePostPreservesValid(st: State, requester: UserId, draft: PostDraft, now: Time)
    requires Valid(st) && requester in st.users
    requires draft.user.Some? ==> draft.user.value in st.users
    ensures Valid(CreatePost(st, requester, draft, now).state)
  {
  }

  lemma CreateCommentPreservesValid(st: State, requester: UserId, draft: CommentDraft, now: Time)
    requires Valid(st) && requester in st.users
    ensures Valid(CreateComment(st, requester, draft, now).state)
  {
  }

  /** A new post shows in the feed of `u` exactly when `u` follows its author. */
  lemma NewPostInFeed(st: State, requester: UserId, draft: PostDraft, now: Time, u: UserId)
    requires Valid(st)
    ensures var s := CreatePost(st, requester, draft, now);
      && (st.nextPost in FeedPosts(s.state, u) <==> (u, requester) in st.follows)
      && FeedPosts(s.state, u) - {st.nextPost} == FeedPosts(st, u)
  {
  }

  /** After a successful Follow the follower's feed gains exactly the followee's posts. */
  lemma FeedAfterFollow(st: State, a: UserId, b: UserId)
    requires Accounts.Follow(st, a, b).reply.Ok?
    ensures FeedPosts(Accounts.Follow(st, a, b).state, a) ==
      FeedPosts(st, a) + (set p | p in st.posts && st.posts[p].author == b)
  {
  }

  /** After a successful Unfollow the follower's feed loses exactly the followee's posts. */
  lemma FeedAfterUnfollow(st: State, a: UserId, b: UserId)
    requires Accounts.Unfollow(st, a, b).reply.Ok?
    ensures FeedPosts(Accounts.Unfollow(st, a, b).state, a) ==
      FeedPosts(st, a) - (set p | p in st.posts && st.posts[p].author == b)
  {
  }
}
