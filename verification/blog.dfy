/**
 The post views of django_blog/blog/views.py: the list ordering, author stamping on
 create, and the author-only gate (`test_func`) in front of edit and delete. The
 requester is the logged-in user that `LoginRequiredMixin` lets through.
 */
module Blog {
  import opened Results
  import Ordering

  type UserId = nat
  type PostId = nat

  /** A blog post; blog/models.py is not part of this model, the columns are those the views use. */
  datatype BlogPost = BlogPost(title: string, content: string, author: UserId, dateCreated: int)

  /** The bound model form: its `fields` are exactly title and content, nothing else can be submitted. */
  datatype PostForm = PostForm(title: string, content: string)

  datatype Blog = Blog(posts: map<PostId, BlogPost>, nextId: PostId)

  /** Every stored post's key is below the next key handed out, so a new post never overwrites one. */
  predicate Valid(blog: Blog) {
    forall id :: id in blog.posts ==> id < blog.nextId
  }

  /** `get_object` on a missing key raises 404; a failed `test_func` for a logged-in user raises 403. */
  datatype Denied = PostNotFound | PermissionDenied

  /** `test_func` of both the update and the delete view. */
  predicate IsAuthor(post: BlogPost, requester: UserId) {
    requester == post.author
  }

  /** `PostCreateView.form_valid`: the form's title and content, stamped with the requester as author. */
  function CreatePost(blog: Blog, requester: UserId, form: PostForm, now: int): (r: (PostId, Blog))
    ensures r.0 == blog.nextId
    ensures r.1.posts.Keys == blog.posts.Keys + {r.0}
    ensures forall id :: id in blog.posts && id != r.0 ==> r.1.posts[id] == blog.posts[id]
    ensures var p := r.1.posts[r.0];
      p.author == requester && p.title == form.title && p.content == form.content && p.dateCreated == now
    ensures r.1.nextId == blog.nextId + 1
  {
    var post := BlogPost(form.title, form.content, requester, now);
    (blog.nextId, Blog(blog.posts[blog.nextId := post], blog.nextId + 1))
  }

  /**
   `PostUpdateView`: allowed exactly for the post's author. The form overwrites title
   and content and `form_valid` stamps the requester as author again, which under
   the gate is the author it already had; the creation date and every other post
   stay as they were.
   */
  function UpdatePost(blog: Blog, requester: UserId, id: PostId, form: PostForm): (r: Result<Blog, Denied>)
    ensures id !in blog.posts ==> r == Failure(PostNotFound)
    ensures id in blog.posts && !IsAuthor(blog.posts[id], requester) ==> r == Failure(PermissionDenied)
    ensures r.Success? <==> id in blog.posts && requester == blog.posts[id].author
    ensures r.Success? ==>
      && r.value.posts.Keys == blog.posts.Keys
      && r.value.posts[id] == blog.posts[id].(title := form.title, content := form.content)
      && (forall other :: other in blog.posts && other != id ==> r.value.posts[other] == blog.posts[other])
      && r.value.nextId == blog.nextId
  {
    if id !in blog.posts then Failure(PostNotFound)
    else if !IsAuthor(blog.posts[id], requester) then Failure(PermissionDenied)
    else
      var post := blog.posts[id].(title := form.title, content := form.content, author := requester);
      Success(blog.(posts := blog.posts[id := post]))
  }

  /** `PostDeleteView`: allowed exactly for the post's author; removes that one post. */
  function DeletePost(blog: Blog, requester: UserId, id: PostId): (r: Result<Blog, Denied>)
    ensures id !in blog.posts ==> r == Failure(PostNotFound)
    ensures id in blog.posts && !IsAuthor(blog.posts[id], requester) ==> r == Failure(PermissionDenied)
    ensures r.Success? <==> id in blog.posts && requester == blog.posts[id].author
    ensures r.Success? ==>
      && r.value.posts.Keys == blog.posts.Keys - {id}
      && (forall other :: other in r.value.posts ==> r.value.posts[other] == blog.posts[other])
      && r.value.nextId == blog.nextId
  {
    if id !in blog.posts then Failure(PostNotFound)
    else if !IsAuthor(blog.posts[id], requester) then Failure(PermissionDenied)
    else Success(blog.(posts := blog.posts - {id}))
  }

  /** A new post in a valid blog is one more post, and the blog stays valid. */
  lemma CreatePostPreservesValid(blog: Blog, requester: UserId, form: PostForm, now: int)
    requires Valid(blog)
    ensures var (id, b1) := CreatePost(blog, requester, form, now);
      && Valid(b1)
      && id !in blog.posts
      && |b1.posts| == |blog.posts| + 1
  {
  }

  lemma UpdatePostPreservesValid(blog: Blog, requester: UserId, id: PostId, form: PostForm)
    requires Valid(blog)
    ensures var r := UpdatePost(blog, requester, id, form);
      r.Success? ==> Valid(r.value) && |r.value.posts| == |blog.posts|
  {
  }

  lemma DeletePostPreservesValid(blog: Blog, requester: UserId, id: PostId)
    requires Valid(blog)
    ensures var r := DeletePost(blog, requester, id);
      r.Success? ==> Valid(r.value) && |r.value.posts| == |blog.posts| - 1
  {
  }

  /** The same gate guards both views: whoever may edit a post may delete it, and nobody else. */
  lemma SameGate(blog: Blog, requester: UserId, id: PostId, form: PostForm)
    ensures UpdatePost(blog, requester, id, form).Success? <==> DeletePost(blog, requester, id).Success?
    ensures UpdatePost(blog, requester, id, form).Failure? ==>
      UpdatePost(blog, requester, id, form).error == DeletePost(blog, requester, id).error
  {
  }

  /** An update never changes a post's author, whoever asks. */
  lemma UpdateKeepsAuthor(blog: Blog, requester: UserId, id: PostId, form: PostForm)
    requires id in blog.posts
    ensures var r := UpdatePost(blog, requester, id, form);
      r.Success? ==> r.value.posts[id].author == blog.posts[id].author
  {
  }

  /** The creator may delete what they created, which takes the blog back to its posts before. */
  lemma CreateThenDelete(blog: Blog, requester: UserId, form: PostForm, now: int)
    requires Valid(blog)
    ensures var (id, b1) := CreatePost(blog, requester, form, now);
      DeletePost(b1, requester, id) == Success(blog.(nextId := blog.nextId + 1))
  {
    var (id, b1) := CreatePost(blog, requester, form, now);
    assert b1.posts - {id} == blog.posts;
  }

  /** Nobody but the creator may edit or delete a freshly created post. */
  lemma CreatedPostIsGated(blog: Blog, requester: UserId, other: UserId, form: PostForm, form': PostForm, now: int)
    requires other != requester
    ensures var (id, b1) := CreatePost(blog, requester, form, now);
      && UpdatePost(b1, other, id, form') == Failure(PermissionDenied)
      && DeletePost(b1, other, id) == Failure(PermissionDenied)
      && UpdatePost(b1, requester, id, form').Success?
  {
  }

  /** `PostListView`: every post, each once, newest `date_created` first. */
  method ListPosts(blog: Blog) returns (ids: seq<PostId>)
    ensures forall id :: id in ids <==> id in blog.posts
    ensures Ordering.Distinct(ids)
    ensures forall i, j :: 0 <= i < j < |ids| ==> blog.posts[ids[i]].dateCreated >= blog.posts[ids[j]].dateCreated
  {
    var stamp := (id: PostId) => if id in blog.posts then blog.posts[id].dateCreated else 0;
    ids := Ordering.NewestFirstOf(blog.posts.Keys, stamp);
    assert forall i :: 0 <= i < |ids| ==> ids[i] in blog.posts && stamp(ids[i]) == blog.posts[ids[i]].dateCreated;
  }
}
