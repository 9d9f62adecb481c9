# Social graph, user manager and blog ownership — a Dafny model

This project models the request handlers of a set of Django learning apps as pure
state transitions and proves properties of them.

- **Social-media API** (`social_media_api`). The state holds users, posts, comments,
  the follow relation, the like relation and the notification table. Each handler is
  a function `(state, requester, argument) -> (reply, state')`:
  - Follow and Unfollow;
  - Like and Unlike, where a like sends a notification;
  - the feed of posts by followed users;
  - the unread-notification listing and MarkRead;
  - author stamping when a post or comment is created.

  A reply is `Ok(value)` or `Err(reason, status)`. The status number is kept only so
  that the handlers' differing choices are visible. `SocialApi` composes the modelled
  handlers into one state machine. It lifts the single-handler facts to every
  admissible modelled request and to every sequence of them: the invariant holds, no
  notification is deleted, and only its recipient can set a notification's read flag.
- **Bookshelf user manager** (`advanced_features_and_security`). `create_user`
  validates the email and fills in defaults with `dict.setdefault`. `create_superuser`
  defaults both flags to true and checks them with `is not True`. `Book.__str__` is
  modelled too, with Python's `str(int)` written out and a parse round trip.
- **Blog ownership gate** (`django_blog`). Create stamps the requester as author.
  Only the author may edit or delete. The list is ordered newest first.

Files: `results.dfy` (Option/Result), `ordering.dfy` (newest-first listing shared by
every `order_by`), `notification_records.dfy` (identifiers, the notification row),
`social_state.dfy` (state, replies, invariant), `accounts.dfy`, `posts.dfy`,
`notifications.dfy`, `social_api.dfy`, `bookshelf.dfy`, `blog.dfy`.

Behaviour of the code that is easy to misread:
- **Like's recipient.** The like notification goes to `post.user`
  (social_media_api/posts/views.py:61), not to the post's author. Posts therefore
  carry a separate optional `user` attribute. When that attribute is missing, reading
  it raises after the like row is already stored: the request fails with 500 and the
  like is kept without a notification.
- **Like is not atomic.** The two writes do not share a transaction. A like can
  therefore exist without its notification, as described above.
- **Follow's guard order.** Follow looks up the target first. A missing target is
  reported with status 403. Only then does it check for a self-follow and for an
  existing edge. Unfollow reports a missing target with 404 and has no self check.

## Model

| member | source | states |
|---|---|---|
| NotificationRecords.Create | social_media_api/notifications/models.py:9-17 | a new notification is unread, carries the creation time, and its target's content type and object id are either both set or both null |
| NotificationRecords.EvolvesTransitive | social_media_api/notifications/models.py:16-17 | repeated updates keep `created_at` and the recipient, and a read flag once true stays true |
| Accounts.Follow | social_media_api/accounts/views.py:36-46 | success iff the target exists, is not the requester and is not yet followed. Errors come in source order: missing target (403), then self, then duplicate (400). Success adds exactly the one edge; an error changes nothing; no notification is ever created |
| Accounts.Unfollow | social_media_api/accounts/views.py:51-59 | success iff the target exists and is followed. A missing target gives 404 and not-following gives 400. Success removes exactly that edge; nothing else changes |
| Accounts.MissingUserStatusDiffers | social_media_api/accounts/views.py:45-59 | a missing target is the same reason with 403 from Follow and 404 from Unfollow |
| Accounts.FollowTwice | social_media_api/accounts/views.py:41-44 | after a successful Follow the same Follow is refused with no change, and exactly one edge for the pair exists |
| Accounts.FollowThenUnfollow | social_media_api/accounts/views.py:43-57 | Unfollow after a successful Follow succeeds and restores the exact prior state |
| Accounts.UnfollowTwice | social_media_api/accounts/views.py:54-57 | a second Unfollow is refused as not-following and changes nothing |
| Accounts.UnfollowThenFollow | social_media_api/accounts/views.py:43-57 | in a valid state, Follow after a successful Unfollow succeeds and restores the exact prior state |
| Accounts.UnfollowSelf | social_media_api/accounts/views.py:51-57 | without a self check, unfollowing oneself in a valid state is refused as not-following |
| Accounts.FollowPreservesValid | social_media_api/accounts/views.py:38-44 | Follow keeps the invariant: no self-edges, and edges join existing users |
| Accounts.UnfollowPreservesValid | social_media_api/accounts/views.py:53-57 | Unfollow keeps the invariant |
| Posts.CreatePost | social_media_api/posts/views.py:20-21 | the new post, under the next key, has the requester as author and the draft's other fields; no other post changes |
| Posts.CreateComment | social_media_api/posts/views.py:28-29 | the new comment, under the next key, has the requester as author; no other comment changes |
| Posts.CreateIgnoresSubmittedAuthor | social_media_api/posts/views.py:20-29 | the author value a client submits has no effect on the created post or comment |
| Posts.Feed | social_media_api/posts/views.py:35-39 | the feed lists exactly the posts by followed users, each once, newest first; following nobody gives an empty feed |
| Posts.Like | social_media_api/posts/views.py:45-67 | missing post gives 404, own post or existing like gives 400, each with no change. Otherwise the one like edge is added. With a `user` attribute, exactly one unread notification is added under the returned next key, with actor = requester, verb "liked your post", target = the post, and no other row changes. Without it, 500 and the like is kept with no notification |
| Posts.Unlike | social_media_api/posts/views.py:75-89 | missing post gives 404, and own post gives 400 before any like lookup. A missing like gives 400. Success removes exactly that one like edge. Notifications are never touched |
| Posts.LikeCreatesOneNotification | social_media_api/posts/views.py:54-65 | in a valid state a successful like grows the notification table and the like relation by exactly one each |
| Posts.LikeTwice | social_media_api/posts/views.py:54-57 | when every notification key is below the next key, a second Like is refused with no change, and across both calls exactly one like and one new notification row were created |
| Posts.LikeThenUnlike | social_media_api/posts/views.py:54-87 | Unlike after Like succeeds and restores the like relation, but the notification the like sent stays |
| Posts.LikePreservesValid | social_media_api/posts/views.py:47-65 | Like keeps the invariant: nobody likes their own post, and notifications are well-formed and name users |
| Posts.UnlikePreservesValid | social_media_api/posts/views.py:77-87 | Unlike keeps the invariant |
| Posts.CreatePostPreservesValid | social_media_api/posts/views.py:20-21 | creating a post keeps the invariant |
| Posts.CreateCommentPreservesValid | social_media_api/posts/views.py:28-29 | creating a comment keeps the invariant |
| Posts.NewPostInFeed | social_media_api/posts/views.py:20-37 | a new post shows in `u`'s feed iff `u` follows its creator, and the rest of the feed is unchanged |
| Posts.FeedAfterFollow | social_media_api/posts/views.py:36-37 | a successful Follow adds exactly the followee's posts to the follower's feed |
| Posts.FeedAfterUnfollow | social_media_api/posts/views.py:36-37 | a successful Unfollow removes exactly the followee's posts from the follower's feed |
| Notifications.ListUnread | social_media_api/notifications/views.py:11-16 | the listing has exactly the requester's unread notifications, each once, newest first, and each entry exposes only that row's verb and creation time |
| Notifications.MarkRead | social_media_api/notifications/views.py:21-29 | success iff the id exists and the requester is its recipient. Success sets only that row's read flag. Otherwise the reply is 404, the same for another user's row as for an absent id, with no change |
| Notifications.MarkReadIdempotent | social_media_api/notifications/views.py:23-26 | marking twice gives the same reply and state as marking once |
| Notifications.ForeignLooksAbsent | social_media_api/notifications/views.py:23-29 | another user's notification gets the same reply as a nonexistent id, and the state is unchanged |
| Notifications.MarkReadLeavesUnread | social_media_api/notifications/views.py:11-26 | after a successful MarkRead that row is no longer in the requester's unread list, and every user's other unread rows are as before |
| Notifications.MarkReadEvolves | social_media_api/notifications/views.py:23-25 | MarkRead deletes no notification and changes nothing but a read flag to true |
| Notifications.MarkReadPreservesValid | social_media_api/notifications/views.py:23-25 | MarkRead keeps the invariant |
| SocialApi.ApplyPreservesValid | social_media_api/posts/views.py:45-89 | every modelled handler keeps the invariant for an admissible call: an authenticated requester and, for a new post, a `user` that names a user |
| SocialApi.ApplyEvolvesNotifications | social_media_api/notifications/models.py:16-17 | no request deletes a notification or changes anything but its read flag to true |
| SocialApi.OnlyLikeNotifies | social_media_api/posts/views.py:60-65 | every request other than Like leaves the set of notification keys unchanged |
| SocialApi.OnlyRecipientMarksRead | social_media_api/notifications/views.py:23-25 | if a request turns a notification's read flag from false to true, it was MarkRead of that id by its recipient |
| SocialApi.RunPreservesValid | social_media_api/posts/views.py:45-89 | any sequence of admissible modelled requests keeps the invariant |
| SocialApi.RunOnlyRecipientMarksRead | social_media_api/notifications/views.py:21-29 | over any sequence of modelled requests, a notification that goes from unread to read was marked by one of the calls: MarkRead of that id by its recipient |
| SocialApi.RunEvolvesNotifications | social_media_api/notifications/models.py:16-17 | over any sequence of requests no notification is deleted, `created_at` never changes, and no read flag goes back to false |
| Bookshelf.BookStr | advanced_features_and_security/LibraryProject/bookshelf/models.py:14-15 | the string starts with the title, ends with ")", and its length is title + author + year digits + 7 |
| Bookshelf.BookStrReadBack | advanced_features_and_security/LibraryProject/bookshelf/models.py:14-15 | given the title and author lengths, " by ", the author, " (" and the year (parsed back with `int`) can be read back from the string |
| Bookshelf.IntRoundTrip | advanced_features_and_security/LibraryProject/bookshelf/models.py:15 | `int(str(y)) == y` for every integer year, negative ones included |
| Bookshelf.SetDefault | advanced_features_and_security/LibraryProject/bookshelf/models.py:31-32 | `setdefault` adds the key only when absent and never overwrites a present value |
| Bookshelf.CreateUser | advanced_features_and_security/LibraryProject/bookshelf/models.py:27-36 | succeeds iff no extra keyword repeats a parameter, the email is neither None nor empty, and every extra keyword is a column of the user model. The errors come in that order: TypeError at the call, then ValueError for the email, then the constructor's TypeError naming the refused keywords. A created user has the normalised email and keeps every supplied extra field. Both flags default to false |
| Bookshelf.UnknownKeywordRefused | advanced_features_and_security/LibraryProject/bookshelf/models.py:33 | with a valid email, `foo=1` is refused by the model constructor with TypeError naming `foo` |
| Bookshelf.ManyToManyRefused | advanced_features_and_security/LibraryProject/bookshelf/models.py:33 | with a valid email, the many-to-many field `groups` is refused by the constructor with TypeError |
| Bookshelf.EmailCheckedBeforeKeywords | advanced_features_and_security/LibraryProject/bookshelf/models.py:28-33 | a missing email raises ValueError even when an extra keyword is one the constructor would refuse |
| Bookshelf.SuperuserFields | advanced_features_and_security/LibraryProject/bookshelf/models.py:39-40 | both flags default to true, and explicit values are kept |
| Bookshelf.SuperuserFlagError | advanced_features_and_security/LibraryProject/bookshelf/models.py:42-45 | no error iff both flags are the boolean True. The staff error comes first, then the superuser error |
| Bookshelf.CreateSuperuserAsWritten | advanced_features_and_security/LibraryProject/bookshelf/models.py:38-45 | raises iff an extra keyword repeats a parameter (TypeError) or an explicit flag is anything but True; otherwise returns None, never a user |
| Bookshelf.SuperuserAsWrittenCreatesNobody | advanced_features_and_security/LibraryProject/bookshelf/models.py:38-45 | a plain call with a valid email and no flags returns None |
| Bookshelf.CreateSuperuser | advanced_features_and_security/LibraryProject/bookshelf/models.py:38-45 | corrected: the same checks in the same order, then `create_user`. It succeeds iff no keyword repeats a parameter, both flags pass, the email is set and every extra keyword is a column of the user model. The user then has both flags True |
| Bookshelf.SuperuserFixAgrees | advanced_features_and_security/LibraryProject/bookshelf/models.py:38-45 | the corrected method raises exactly where the written one does. Where the written one returns None, it returns `create_user`'s result |
| Bookshelf.UserFlagDefaults | advanced_features_and_security/LibraryProject/bookshelf/models.py:27-45 | with no extra fields, a user gets both flags False and a superuser both True; nothing else differs |
| Blog.CreatePost | django_blog/blog/views.py:43-50 | the new post has the requester as author and the form's title and content; no other post changes |
| Blog.UpdatePost | django_blog/blog/views.py:53-64 | missing post is 404. Otherwise allowed iff the requester is the author, else 403. Success changes only title and content of that post; author and date are kept |
| Blog.DeletePost | django_blog/blog/views.py:67-74 | missing post is 404. Otherwise allowed iff the requester is the author, else 403. Success removes exactly that post |
| Blog.CreatePostPreservesValid | django_blog/blog/views.py:43-50 | in a blog whose keys are all below the next key, a new post never overwrites one: the blog gains exactly one post and stays valid |
| Blog.UpdatePostPreservesValid | django_blog/blog/views.py:53-64 | a successful update keeps the number of posts and the invariant |
| Blog.DeletePostPreservesValid | django_blog/blog/views.py:67-74 | a successful delete removes exactly one post and keeps the invariant |
| Blog.SameGate | django_blog/blog/views.py:62-74 | edit and delete are allowed for exactly the same requester and refused with the same error |
| Blog.UpdateKeepsAuthor | django_blog/blog/views.py:58-64 | re-stamping on update never changes a post's author |
| Blog.CreateThenDelete | django_blog/blog/views.py:48-74 | in a valid blog, the creator may delete what they created, which restores the previous posts |
| Blog.CreatedPostIsGated | django_blog/blog/views.py:48-74 | nobody but the creator may edit or delete a new post; the creator may edit it |
| Blog.ListPosts | django_blog/blog/views.py:31-35 | the list has every post, each once, newest `date_created` first |

## Findings

| source | as written | input that shows it | evidently intended | confidence | as-written member | corrected member |
|---|---|---|---|---|---|---|
| advanced_features_and_security/LibraryProject/bookshelf/models.py:38-45 | `create_superuser` applies the defaults and checks, then ends without a `return`: it yields None and creates no user | `create_superuser("admin", "admin@example.com", "secret")` with no extra fields | end with `return self.create_user(username, email, password, **extra_fields)` | high; not executed | Bookshelf.CreateSuperuserAsWritten (with Bookshelf.SuperuserAsWrittenCreatesNobody) | Bookshelf.CreateSuperuser (with Bookshelf.SuperuserFixAgrees) |

## Left out

- HTTP plumbing: Response envelopes, detail messages and serializers are left out. Only a reason and the status number are kept in each error reply.
- Authentication and permission classes (`IsAuthenticated`, `LoginRequiredMixin`): the requester is always an authenticated user. The anonymous paths are framework behaviour.
- Registration, login and token issuance (social_media_api/accounts/views.py:13-29), the user list view and the account serializers: these are wrappers over the framework's auth and token store.
- `normalize_email`, `set_password` and `save`: their code is not part of this model. Normalisation is a function parameter. The password is recorded as passed. The unique-email constraint that `save` would enforce is not modelled.
- Concurrency: `get_or_create` races and transactions are out of scope for a sequential model. The model follows the sequential effect of the code, including the non-atomic like described above.
- The clock: `created_at`/`date_created` come from a `now` argument.
- The user model's `is_following`, `follow` and `unfollow` helpers are not part of this model. They appear as set membership, insertion and removal. No user is ever created or deleted, so cascades are not modelled.
- posts/models.py and blog/models.py are not part of this model. Post and comment columns are those the views use. Whether a post has the `user` attribute is a per-post option. Serializer and form validation (required fields, foreign-key existence of a comment's post) are not modelled.
- social_media_api/notifications/models.py:6 binds `User = get_user_model`, the function, without calling it. `ForeignKey(User, ...)` at line 10 then raises TypeError while the model class is defined. As written, `notifications.models` cannot be imported, and neither can social_media_api/posts/views.py, which imports it at line 10. The model describes the handlers as they behave once that line calls `get_user_model()`; the import failure itself is not modelled.
- `target_object_id`'s 2^63-1 upper bound is not modelled: keys are unbounded naturals. The 255-character verb limit is a well-formedness condition, which the invariant keeps.
- Bookshelf.CreateUser: the keywords the model constructor accepts are listed in `ModelKeywords`: the columns of `AbstractUser` and its bases, the two added columns, and `pk`. Django's constructor is not part of this model. Settable properties other than `pk`, and the type of each value (a string for a date column, say), are not checked. The TypeError's message text, and which refused keyword Django names first, are not modelled either. `is_authenticated` and `is_anonymous` are read-only properties: the real constructor fails on them with AttributeError while trying to set them, but the model reports them in a TypeError.
- Bookshelf.CreateSuperuser: inherits the keyword check above from `create_user`, with the same limits.
- `Notification.__str__` and `CustomUser.__str__` are display-only and not modelled.
- SocialApi: the invariant lemmas assume every call is admissible. The requester is an authenticated user, and a new post's `user`, when given, names an existing user. The second half stands for the serializer's foreign-key validation, whose code is not part of this model. A post naming a missing user would break the invariant.
- SocialApi: the update, partial_update and destroy actions of `PostViewSet` and `CommentViewSet` (social_media_api/posts/views.py:13-29) are not requests of the model. They come from the framework's `ModelViewSet`. `IsAuthenticatedOrReadOnly` lets any authenticated user run them, with no ownership check. They can change posts and comments, and through cascades likes. The Run lemmas hold over the modelled requests only.
- Generic CRUD views, routers, `urls.py`, `admin.py`, `forms.py`, the relationship app's views and query samples, the API test file, and the blog's register, profile and detail views: they have no branching of their own beyond the framework's.
- Posts.Feed: returns the keys of the posts in feed order rather than their serialized form.
- Notifications.ListUnread: also returns the ordered row keys next to the projected entries, so that the contract can name the rows each entry comes from.
