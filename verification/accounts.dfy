/**
 The follow handlers of social_media_api/accounts/views.py. The user model's
 `is_following`, `follow` and `unfollow` helpers are membership in, insertion into
 and removal from the follow relation.
 */
module Accounts {
  import opened Identity
  import opened SocialState

  /**
   `FollowUserView.post`. The guards run in the source's order: the target must exist
   (a missing target is reported with status 403), must not be the requester, and must
   not be followed yet; only then is the single edge added. No notification is sent.
   */
  function Follow(st: State, requester: UserId, target: UserId): (s: Step<()>)
    ensures s.reply.Ok? <==> target in st.users && target != requester && (requester, target) !in st.follows
    ensures target !in st.users ==> s.reply == Err(UserNotFound, Forbidden)
    ensures target in st.users && target == requester ==> s.reply == Err(SelfFollow, BadRequest)
    ensures target in st.users && target != requester && (requester, target) in st.follows ==>
      s.reply == Err(AlreadyFollowing, BadRequest)
    // the edge is there afterwards exactly when the call succeeded or it was there before
    ensures forall e :: e in s.state.follows <==> e in st.follows || (s.reply.Ok? && e == (requester, target))
    ensures s.reply.Ok? ==> |s.state.follows| == |st.follows| + 1
    ensures s.reply.Err? ==> s.state == st
    ensures s.state.(follows := st.follows) == st
  {
    if target !in st.users then Step(Err(UserNotFound, Forbidden), st)
    else if requester == target then Step(Err(SelfFollow, BadRequest), st)
    else if (requester, target) in st.follows then Step(Err(AlreadyFollowing, BadRequest), st)
    else Step(Ok(()), st.(follows := st.follows + {(requester, target)}))
  }

  /**
   `UnfollowUserView.post`. A missing target is reported with status 404; there is no
   self check, only the "not following" guard before the single edge is removed.
   */
  function Unfollow(st: State, requester: UserId, target: UserId): (s: Step<()>)
    ensures s.reply.Ok? <==> target in st.users && (requester, target) in st.follows
    ensures target !in st.users ==> s.reply == Err(UserNotFound, NotFound)
    ensures target in st.users && (requester, target) !in st.follows ==> s.reply == Err(NotFollowing, BadRequest)
    ensures forall e :: e in s.state.follows <==> e in st.follows && !(s.reply.Ok? && e == (requester, target))
    ensures s.reply.Ok? ==> |s.state.follows| == |st.follows| - 1
    ensures s.reply.Err? ==> s.state == st
    ensures s.state.(follows := st.follows) == st
  {
    if target !in st.users then Step(Err(UserNotFound, NotFound), st)
    else if (requester, target) !in st.follows then Step(Err(NotFollowing, BadRequest), st)
    else Step(Ok(()), st.(follows := st.follows - {(requester, target)}))
  }

  /** A missing target is 403 for Follow but 404 for Unfollow, with the same reason. */
  lemma MissingUserStatusDiffers(st: State, requester: UserId, target: UserId)
    requires target !in st.users
    ensures Follow(st, requester, target).reply == Err(UserNotFound, 403)
    ensures Unfollow(st, requester, target).reply == Err(UserNotFound, 404)
  {
  }

  /** Following twice: the second call is refused and exactly the one edge remains. */
  lemma FollowTwice(st: State, a: UserId, b: UserId)
    requires Follow(st, a, b).reply.Ok?
    ensures var st1 := Follow(st, a, b).state;
      && Follow(st1, a, b) == Step(Err(AlreadyFollowing, BadRequest), st1)
      && (a, b) in st1.follows
      && st1.follows - {(a, b)} == st.follows
  {
  }

  /** Unfollow undoes a successful Follow exactly. */
  lemma FollowThenUnfollow(st: State, a: UserId, b: UserId)
    requires Follow(st, a, b).reply.Ok?
    ensures Unfollow(Follow(st, a, b).state, a, b) == Step(Ok(()), st)
  {
  }

  /** A second Unfollow is refused: no edge is left to remove. */
  lemma UnfollowTwice(st: State, a: UserId, b: UserId)
    requires Unfollow(st, a, b).reply.Ok?
    ensures var st1 := Unfollow(st, a, b).state;
      Unfollow(st1, a, b) == Step(Err(NotFollowing, BadRequest), st1)
  {
  }

  /** Follow undoes a successful Unfollow exactly, since nobody follows themselves. */
  lemma UnfollowThenFollow(st: State, a: UserId, b: UserId)
    requires Valid(st)
    requires Unfollow(st, a, b).reply.Ok?
    ensures Follow(Unfollow(st, a, b).state, a, b) == Step(Ok(()), st)
  {
  }

  /** Unfollowing oneself, which the handler does not check, is refused as "not following". */
  lemma UnfollowSelf(st: State, a: UserId)
    requires Valid(st) && a in st.users
    ensures Unfollow(st, a, a) == Step(Err(NotFollowing, BadRequest), st)
  {
  }

  lemma FollowPreservesValid(st: State, requester: UserId, target: UserId)
    requires Valid(st) && requester in st.users
    ensures Valid(Follow(st, requester, target).state)
  {
  }

  lemma UnfollowPreservesValid(st: State, requester: UserId, target: UserId)
    requires Valid(st)
    ensures Valid(Unfollow(st, requester, target).state)
  {
  }
}
