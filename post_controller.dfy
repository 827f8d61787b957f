/** The post controller: `createPost`, `getAllPosts`, `getMyPosts`,
    `updatePost` and `deletePost` over the posts collection. The requester's
    id is `req.user.id`, set by the authentication middleware, and is an input
    here. The class `PostStore` holds the collection; its methods change it
    the way the handlers' `Post.create`, `post.save()` and `post.deleteOne()`
    calls do. */
module PostController {
  import opened Wrappers
  import opened Token

  /** A post's MongoDB `_id`. */
  type PostId = nat

  /** A stored post; `author` is the `_id` of the user who created it. A title
      or content the create request left out (or sent as `null`) is None. */
  datatype Post = Post(title: Option<string>, content: Option<string>, author: UserId)

  type Posts = map<PostId, Post>

  /** `req.body` of the create and update requests. */
  datatype PostBody = PostBody(title: Field<string>, content: Field<string>)

  /** `req.params.id`: `Post.findById` casts it to an ObjectId, and a string
      that is not one makes the cast throw. */
  datatype PathId = ObjectIdParam(id: PostId) | NotAnObjectId(text: string)

  /** Every response the post handlers send. */
  datatype PostReply =
    | PostCreated(id: PostId, post: Post)
    | PostList(posts: Posts)
    | PostUpdated(post: Post)
    | PostDeleted
    | PostNotFound
    | NotAllowed
    | PostError
  {
    function Status(): int {
      match this
      case PostCreated(_, _) => 201
      case PostList(_) => 200
      case PostUpdated(_) => 200
      case PostDeleted => 200
      case PostNotFound => 404
      case NotAllowed => 403
      case PostError => 500
    }
  }

  /** JavaScript truthiness of a body field holding a string. */
  predicate Truthy(f: Field<string>) {
    f.Given? && f.value != ""
  }

  /** `value || current`. */
  function OrElse(f: Field<string>, current: Option<string>): Option<string> {
    if Truthy(f) then Some(f.value) else current
  }

  /** The post after `post.title = title || post.title; post.content =
      content || post.content`: a field is replaced only by a truthy value, and
      the author is never touched. */
  function Updated(p: Post, body: PostBody): (q: Post)
    ensures q.author == p.author
    ensures q.title == (if Truthy(body.title) then Some(body.title.value) else p.title)
    ensures q.content == (if Truthy(body.content) then Some(body.content.value) else p.content)
  {
    p.(title := OrElse(body.title, p.title), content := OrElse(body.content, p.content))
  }

  /** Applying the same update twice leaves what applying it once left. */
  lemma UpdateIdempotent(p: Post, body: PostBody)
    ensures Updated(Updated(p, body), body) == Updated(p, body)
  {
  }

  /** The posts `Post.find({ author })` returns. */
  function PostsBy(posts: Posts, author: UserId): (r: Posts)
    ensures forall id :: id in r <==> id in posts && posts[id].author == author
    ensures forall id :: id in r ==> r[id] == posts[id]
  {
    map id | id in posts && posts[id].author == author :: posts[id]
  }

  /** Creating a post by `p.author` adds exactly that post to its author's
      posts and changes no other author's posts. */
  lemma PostsByAfterCreate(posts: Posts, id: PostId, p: Post, who: UserId)
    requires id !in posts
    ensures PostsBy(posts[id := p], who) == if who == p.author then PostsBy(posts, who)[id := p] else PostsBy(posts, who)
  {
    var after := PostsBy(posts[id := p], who);
    var expected := if who == p.author then PostsBy(posts, who)[id := p] else PostsBy(posts, who);
    assert after.Keys == expected.Keys;
  }

  /** Deleting a post removes it from its author's posts and changes no other
      author's posts. */
  lemma PostsByAfterDelete(posts: Posts, id: PostId, who: UserId)
    requires id in posts
    ensures PostsBy(posts - {id}, who) == PostsBy(posts, who) - {id}
  {
    assert PostsBy(posts - {id}, who).Keys == (PostsBy(posts, who) - {id}).Keys;
  }

  /** The posts collection with the five handlers. */
  class PostStore {
    var posts: Posts

    constructor ()
      ensures posts == map[]
    {
      posts := map[];
    }

    /** `createPost` by `requester`, with the generated `_id` `id` (an id
        already in use is a duplicate-key error, answered with 500). */
    method CreatePost(body: PostBody, requester: UserId, id: PostId) returns (reply: PostReply)
      modifies this
      ensures id in old(posts) ==> reply == PostError && posts == old(posts)
      ensures id !in old(posts) ==>
        var p := Post(body.title.Provided(), body.content.Provided(), requester);
        reply == PostCreated(id, p) && posts == old(posts)[id := p]
    {
      if id in posts {
        return PostError;
      }
      var post := Post(body.title.Provided(), body.content.Provided(), requester);
      posts := posts[id := post];
      reply := PostCreated(id, post);
    }

    /** `getAllPosts`: every post (the `populate` of the author is left out). */
    method GetAllPosts() returns (r: Posts)
      ensures r.Keys == posts.Keys
      ensures forall id :: id in r ==> r[id] == posts[id]
    {
      r := posts;
    }

    /** `getMyPosts`: exactly the posts whose author is the requester. */
    method GetMyPosts(requester: UserId) returns (r: Posts)
      ensures forall id :: id in r <==> id in posts && posts[id].author == requester
      ensures forall id :: id in r ==> r[id] == posts[id]
    {
      r := PostsBy(posts, requester);
    }

    /** `updatePost`: 404 for a missing post, 403 unless the requester wrote
        it, otherwise the truthy fields of the body replace the stored ones. */
    method UpdatePost(target: PathId, body: PostBody, requester: UserId) returns (reply: PostReply)
      modifies this
      ensures target.NotAnObjectId? ==> reply == PostError && posts == old(posts)
      ensures target.ObjectIdParam? && target.id !in old(posts) ==> reply == PostNotFound && posts == old(posts)
      ensures target.ObjectIdParam? && target.id in old(posts) && old(posts)[target.id].author != requester ==>
        reply == NotAllowed && posts == old(posts)
      ensures target.ObjectIdParam? && target.id in old(posts) && old(posts)[target.id].author == requester ==>
        var p := Updated(old(posts)[target.id], body);
        reply == PostUpdated(p) && posts == old(posts)[target.id := p]
    {
      if target.NotAnObjectId? {
        return PostError;
      }
      if target.id !in posts {
        return PostNotFound;
      }
      var post := posts[target.id];
      if post.author != requester {
        return NotAllowed;
      }
      post := post.(title := OrElse(body.title, post.title));
      post := post.(content := OrElse(body.content, post.content));
      posts := posts[target.id := post];
      reply := PostUpdated(post);
    }

    /** `deletePost`: 404 for a missing post, 403 unless the requester wrote
        it, otherwise that post, and only it, is removed. */
    method DeletePost(target: PathId, requester: UserId) returns (reply: PostReply)
      modifies this
      ensures target.NotAnObjectId? ==> reply == PostError && posts == old(posts)
      ensures target.ObjectIdParam? && target.id !in old(posts) ==> reply == PostNotFound && posts == old(posts)
      ensures target.ObjectIdParam? && target.id in old(posts) && old(posts)[target.id].author != requester ==>
        reply == NotAllowed && posts == old(posts)
      ensures target.ObjectIdParam? && target.id in old(posts) && old(posts)[target.id].author == requester ==>
        reply == PostDeleted && posts == old(posts) - {target.id}
    {
      if target.NotAnObjectId? {
        return PostError;
      }
      if target.id !in posts {
        return PostNotFound;
      }
      if posts[target.id].author != requester {
        return NotAllowed;
      }
      posts := posts - {target.id};
      reply := PostDeleted;
    }
  }
}
