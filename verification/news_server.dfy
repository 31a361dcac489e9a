/** The in-memory news table of the Express server (backend/server.js):
    a module-level array of posts behind `GET`, `POST`, `PUT /:id` and
    `DELETE /:id` on `/api/news`. The handlers are specified by pure functions
    from the old table to the new table and the reply (`CreateOp`, `ReplaceOp`,
    `DeleteOp`); the class `NewsTable` updates its table in place the way the
    handlers do and is proved against them. Timestamps are integers; a handler's
    clock reading is the parameter `now`, and start-up takes one reading per
    sample post. */
module NewsServer {
  import opened Web
  import IntParsing
  import Recency

  datatype Post = Post(id: int, title: string, content: string, uploadDate: int, link: string)

  /** The JSON body of a create or replace request. The client also sends
      `imageUrl`; the server never stores it. */
  datatype PostBody = PostBody(title: string, content: string, link: string, imageUrl: string)

  /** A reply: status code and JSON body. */
  datatype Reply =
    | PostReply(status: int, post: Post)
    | ListReply(status: int, posts: seq<Post>)
    | MessageReply(status: int, message: string)

  /** The table after a handler ran, and the reply it sent. */
  datatype Step = Step(table: seq<Post>, reply: Reply)

  const NotFoundMessage := "Post not found"

  /** The two sample posts the server starts with. Each is stamped by its own
      reading of the clock at start-up, so the two dates can differ. */
  function InitialPosts(firstStamp: int, secondStamp: int): seq<Post>
  {
    [ Post(1, "First News", "This is the first news content.", firstStamp, "http://example.com"),
      Post(2, "Second News", "This is the second news content.", secondStamp, "http://example.com") ]
  }

  function UploadDate(p: Post): int
  {
    p.uploadDate
  }

  /** A client's newest-first sort of the start-up table shows "Second News"
      first exactly when its clock reading came later; with equal readings
      the stable sort keeps the table's order. */
  lemma InitialNewestFirst(firstStamp: int, secondStamp: int)
    ensures var posts := InitialPosts(firstStamp, secondStamp);
            Recency.Sort(posts, UploadDate, Recency.NewestFirst)
              == if firstStamp < secondStamp then [posts[1], posts[0]] else posts
  {
    var posts := InitialPosts(firstStamp, secondStamp);
    assert posts[1..] == [posts[1]] && posts[1..][1..] == [];
    assert Recency.Sort(posts[1..], UploadDate, Recency.NewestFirst) == [posts[1]];
    assert Recency.Sort(posts, UploadDate, Recency.NewestFirst)
        == Recency.Insert(posts[0], [posts[1]], UploadDate, Recency.NewestFirst);
    if firstStamp < secondStamp {
      assert [posts[1]][1..] == [];
    }
  }

  /** `post.id === postId`: a NaN id (here `None`) equals no post. */
  predicate Matches(p: Post, target: Option<int>)
  {
    target == Some(p.id)
  }

  /** `posts.findIndex(post => post.id === postId)`: the first match, or -1. */
  function FindIndex(posts: seq<Post>, target: Option<int>): (i: int)
    ensures -1 <= i < |posts|
    ensures 0 <= i ==> Matches(posts[i], target)
    ensures 0 <= i ==> forall j :: 0 <= j < i ==> !Matches(posts[j], target)
    ensures i == -1 <==> forall j :: 0 <= j < |posts| ==> !Matches(posts[j], target)
  {
    if posts == [] then -1
    else if Matches(posts[0], target) then 0
    else
      var k := FindIndex(posts[1..], target);
      if k == -1 then -1 else k + 1
  }

  function Ids(posts: seq<Post>): (ids: seq<int>)
    ensures |ids| == |posts|
  {
    seq(|posts|, i requires 0 <= i < |posts| => posts[i].id)
  }

  predicate UniqueIds(posts: seq<Post>)
  {
    forall i, j :: 0 <= i < j < |posts| ==> posts[i].id != posts[j].id
  }

  /** Every id is positive: the server never hands out an id below 1. */
  predicate PositiveIds(posts: seq<Post>)
  {
    forall i :: 0 <= i < |posts| ==> posts[i].id >= 1
  }

  /** Ids are exactly 1, 2, ..., n in order: true at start-up and kept by
      create and replace, but not by delete. */
  predicate DenseIds(posts: seq<Post>)
  {
    forall i :: 0 <= i < |posts| ==> posts[i].id == i + 1
  }

  /** `GET /api/news`: the table as stored, in insertion order. */
  function ListOp(posts: seq<Post>): (r: Step)
    ensures r.table == posts
    ensures r.reply.ListReply? && r.reply.status == 200 && r.reply.posts == posts
  {
    Step(posts, ListReply(200, posts))
  }

  /** `POST /api/news`: appends one post numbered one past the table's length
      and stamped `now`, and answers 201 with it. */
  function CreateOp(posts: seq<Post>, body: PostBody, now: int): (r: Step)
    ensures r.reply.PostReply? && r.reply.status == 201
    ensures r.table == posts + [r.reply.post]
    ensures r.reply.post.id == |posts| + 1 && r.reply.post.uploadDate == now
    ensures r.reply.post.title == body.title && r.reply.post.content == body.content
    ensures r.reply.post.link == body.link
  {
    var created := Post(|posts| + 1, body.title, body.content, now, body.link);
    Step(posts + [created], PostReply(201, created))
  }

  /** The matched post with the body's title, content and link and a new
      upload date; its id stays. */
  function Refreshed(p: Post, body: PostBody, now: int): Post
  {
    p.(title := body.title, content := body.content, uploadDate := now, link := body.link)
  }

  /** `PUT /api/news/:id`, once the path segment has been parsed into
      `postId` (`None` for NaN). */
  function ReplaceOp(posts: seq<Post>, postId: Option<int>, body: PostBody, now: int): (r: Step)
    ensures |r.table| == |posts|
    ensures var i := FindIndex(posts, postId);
            if i == -1 then
              r.table == posts && r.reply == MessageReply(404, NotFoundMessage)
            else
              && r.reply.PostReply? && r.reply.status == 200
              && r.table[i] == r.reply.post
              && r.reply.post.id == posts[i].id
              && r.reply.post.title == body.title && r.reply.post.content == body.content
              && r.reply.post.link == body.link && r.reply.post.uploadDate == now
              && forall j :: 0 <= j < |posts| && j != i ==> r.table[j] == posts[j]
  {
    var i := FindIndex(posts, postId);
    if i == -1 then
      Step(posts, MessageReply(404, NotFoundMessage))
    else
      var updated := Refreshed(posts[i], body, now);
      Step(posts[i := updated], PostReply(200, updated))
  }

  /** `DELETE /api/news/:id`, once the path segment has been parsed into
      `postId`. */
  function DeleteOp(posts: seq<Post>, postId: Option<int>): (r: Step)
    ensures var i := FindIndex(posts, postId);
            if i == -1 then
              r.table == posts && r.reply == MessageReply(404, NotFoundMessage)
            else
              && r.reply == PostReply(200, posts[i])
              && |r.table| == |posts| - 1
              && (forall j :: 0 <= j < i ==> r.table[j] == posts[j])
              && (forall j :: i <= j < |r.table| ==> r.table[j] == posts[j + 1])
  {
    var i := FindIndex(posts, postId);
    if i == -1 then
      Step(posts, MessageReply(404, NotFoundMessage))
    else
      Step(posts[..i] + posts[i + 1..], PostReply(200, posts[i]))
  }

  /** Replace never changes which ids the table holds, nor their order. */
  lemma ReplaceKeepsIds(posts: seq<Post>, postId: Option<int>, body: PostBody, now: int)
    ensures Ids(ReplaceOp(posts, postId, body, now).table) == Ids(posts)
  {
    var after := ReplaceOp(posts, postId, body, now).table;
    forall j | 0 <= j < |posts|
      ensures Ids(after)[j] == Ids(posts)[j]
    {
    }
  }

  /** A path id that does not parse (NaN) is always answered 404 and the
      table is left alone, by replace and by delete. */
  lemma NaNIdNotFound(posts: seq<Post>, rawId: string, body: PostBody, now: int)
    requires IntParsing.ParseInt(rawId) == None
    ensures ReplaceOp(posts, IntParsing.ParseInt(rawId), body, now) == Step(posts, MessageReply(404, NotFoundMessage))
    ensures DeleteOp(posts, IntParsing.ParseInt(rawId)) == Step(posts, MessageReply(404, NotFoundMessage))
  {
  }

  /** Ids are positive, so an id below 1 (the path "0" or "-3") matches no
      post: replace and delete both answer 404 and keep the table. */
  lemma NonPositiveIdNotFound(posts: seq<Post>, postId: Option<int>, body: PostBody, now: int)
    requires PositiveIds(posts)
    requires postId.Some? && postId.value < 1
    ensures ReplaceOp(posts, postId, body, now) == Step(posts, MessageReply(404, NotFoundMessage))
    ensures DeleteOp(posts, postId) == Step(posts, MessageReply(404, NotFoundMessage))
  {
    NonPositiveIdMatchesNothing(posts, postId);
  }

  lemma NonPositiveIdMatchesNothing(posts: seq<Post>, postId: Option<int>)
    requires PositiveIds(posts)
    requires postId.Some? && postId.value < 1
    ensures FindIndex(posts, postId) == -1
  {
    forall j | 0 <= j < |posts|
      ensures !Matches(posts[j], postId)
    {
      assert posts[j].id >= 1;
    }
  }

  /** Addressing a post by the decimal form of its id finds it. */
  lemma DecimalIdFindsPost(posts: seq<Post>, n: int)
    requires exists j :: 0 <= j < |posts| && posts[j].id == n
    ensures 0 <= FindIndex(posts, IntParsing.ParseInt(IntParsing.Decimal(n)))
    ensures posts[FindIndex(posts, IntParsing.ParseInt(IntParsing.Decimal(n)))].id == n
  {
    IntParsing.ParseDecimal(n, "");
    assert IntParsing.Decimal(n) + "" == IntParsing.Decimal(n);
  }

  /** With unique ids, a second delete of the same id finds nothing: it is
      answered 404 and leaves the table as the first delete left it. */
  lemma DeleteTwiceNotFound(posts: seq<Post>, postId: Option<int>)
    requires UniqueIds(posts)
    requires DeleteOp(posts, postId).reply.status == 200
    ensures var once := DeleteOp(posts, postId).table;
            DeleteOp(once, postId) == Step(once, MessageReply(404, NotFoundMessage))
  {
    var i := FindIndex(posts, postId);
    var once := DeleteOp(posts, postId).table;
    forall j | 0 <= j < |once|
      ensures !Matches(once[j], postId)
    {
      if j < i {
        assert once[j] == posts[j];
      } else {
        assert once[j] == posts[j + 1];
        assert posts[i].id != posts[j + 1].id;
      }
    }
  }

  /** Deleting keeps ids unique and positive. */
  lemma DeleteKeepsIdInvariants(posts: seq<Post>, postId: Option<int>)
    ensures UniqueIds(posts) ==> UniqueIds(DeleteOp(posts, postId).table)
    ensures PositiveIds(posts) ==> PositiveIds(DeleteOp(posts, postId).table)
  {
    var i := FindIndex(posts, postId);
    var after := DeleteOp(posts, postId).table;
    if i != -1 {
      assert forall j :: 0 <= j < |after| ==> after[j] == posts[if j < i then j else j + 1];
    }
  }

  /** Create and replace keep ids positive. */
  lemma CreateReplaceKeepPositiveIds(posts: seq<Post>, postId: Option<int>, body: PostBody, now: int)
    requires PositiveIds(posts)
    ensures PositiveIds(CreateOp(posts, body, now).table)
    ensures PositiveIds(ReplaceOp(posts, postId, body, now).table)
  {
    ReplaceKeepsIds(posts, postId, body, now);
    var after := ReplaceOp(posts, postId, body, now).table;
    forall j | 0 <= j < |after|
      ensures after[j].id >= 1
    {
      assert after[j].id == Ids(after)[j] == Ids(posts)[j];
    }
  }

  /** On a table with unique ids, create keeps them unique exactly when no
      post already carries the id one past the length. */
  lemma CreateKeepsUniqueIff(posts: seq<Post>, body: PostBody, now: int)
    requires UniqueIds(posts)
    ensures UniqueIds(CreateOp(posts, body, now).table)
            <==> forall j :: 0 <= j < |posts| ==> posts[j].id != |posts| + 1
  {
    var after := CreateOp(posts, body, now).table;
    if UniqueIds(after) {
      forall j | 0 <= j < |posts|
        ensures posts[j].id != |posts| + 1
      {
        assert after[j] == posts[j] && after[|posts|].id == |posts| + 1;
      }
    }
  }

  /** Dense ids (1..n) are unique, hold at start-up and survive create and
      replace; so ids can only collide after a delete. */
  lemma DenseIdsInvariant(posts: seq<Post>, postId: Option<int>, body: PostBody, now: int,
                           firstStamp: int, secondStamp: int)
    ensures DenseIds(InitialPosts(firstStamp, secondStamp))
    ensures DenseIds(posts) ==> UniqueIds(posts)
    ensures DenseIds(posts) ==> DenseIds(CreateOp(posts, body, now).table)
    ensures DenseIds(posts) ==> DenseIds(ReplaceOp(posts, postId, body, now).table)
  {
    ReplaceKeepsIds(posts, postId, body, now);
    if DenseIds(posts) {
      var after := ReplaceOp(posts, postId, body, now).table;
      forall j | 0 <= j < |after|
        ensures after[j].id == j + 1
      {
        assert after[j].id == Ids(after)[j] == Ids(posts)[j];
      }
    }
  }

  /** Ids stop being unique: from the ids [1, 2], deleting post 1 (the path
      "1" parses to 1, `OneParsesToOne`) and then
      creating a post numbers the new post 2 (one past the length), next to
      the post 2 that is still there. */
  lemma DeleteThenCreateRepeatsId(posts: seq<Post>, body: PostBody, now: int)
    requires Ids(posts) == [1, 2]
    ensures var afterDelete := DeleteOp(posts, Some(1)).table;
            var afterCreate := CreateOp(afterDelete, body, now).table;
            && UniqueIds(posts)
            && Ids(afterCreate) == [2, 2]
            && !UniqueIds(afterCreate)
  {
    assert posts[0].id == Ids(posts)[0] == 1;
    assert posts[1].id == Ids(posts)[1] == 2;
    DeleteFirstOfTwo(posts);
    var afterCreate := CreateOp([posts[1]], body, now).table;
    assert |afterCreate| == 2 && afterCreate[0] == posts[1];
    assert afterCreate[1].id == 2;
    assert Ids(afterCreate) == [afterCreate[0].id, afterCreate[1].id];
  }

  lemma DeleteFirstOfTwo(posts: seq<Post>)
    requires |posts| == 2 && posts[0].id == 1
    ensures DeleteOp(posts, Some(1)).table == [posts[1]]
  {
    assert FindIndex(posts, Some(1)) == 0;
  }

  /** The path segment "1" addresses id 1. */
  lemma OneParsesToOne()
    ensures IntParsing.ParseInt("1") == Some(1)
  {
    IntParsing.ParseDecimal(1, "");
    assert IntParsing.NaturalDigits(1) == ['1'];
    assert IntParsing.Decimal(1) + "" == "1";
  }

  /** The server's table. Each handler updates it in place as the route does
      (`push`, indexed assignment, `splice`) and is proved against the
      corresponding operation above. */
  class NewsTable {
    var posts: seq<Post>

    ghost predicate Valid()
      reads this
    {
      PositiveIds(posts)
    }

    constructor (firstStamp: int, secondStamp: int)
      ensures Valid() && posts == InitialPosts(firstStamp, secondStamp)
    {
      posts := InitialPosts(firstStamp, secondStamp);
    }

    method List() returns (reply: Reply)
      ensures Step(posts, reply) == ListOp(posts)
    {
      reply := ListReply(200, posts);
    }

    method Create(body: PostBody, now: int) returns (reply: Reply)
      requires Valid()
      modifies this
      ensures Valid()
      ensures Step(posts, reply) == CreateOp(old(posts), body, now)
    {
      var created := Post(|posts| + 1, body.title, body.content, now, body.link);
      posts := posts + [created];
      reply := PostReply(201, created);
    }

    method Replace(rawId: string, body: PostBody, now: int) returns (reply: Reply)
      requires Valid()
      modifies this
      ensures Valid()
      ensures Step(posts, reply) == ReplaceOp(old(posts), IntParsing.ParseInt(rawId), body, now)
      ensures var postId := IntParsing.ParseInt(rawId);
              postId.Some? && postId.value < 1 ==> reply == MessageReply(404, NotFoundMessage)
    {
      var postId := IntParsing.ParseInt(rawId);
      if postId.Some? && postId.value < 1 {
        NonPositiveIdNotFound(posts, postId, body, now);
      }
      CreateReplaceKeepPositiveIds(posts, postId, body, now);
      var postIndex := FindIndex(posts, postId);
      if postIndex != -1 {
        posts := posts[postIndex := Refreshed(posts[postIndex], body, now)];
        reply := PostReply(200, posts[postIndex]);
      } else {
        reply := MessageReply(404, NotFoundMessage);
      }
    }

    method Delete(rawId: string) returns (reply: Reply)
      requires Valid()
      modifies this
      ensures Valid()
      ensures Step(posts, reply) == DeleteOp(old(posts), IntParsing.ParseInt(rawId))
      ensures var postId := IntParsing.ParseInt(rawId);
              postId.Some? && postId.value < 1 ==> reply == MessageReply(404, NotFoundMessage)
    {
      var postId := IntParsing.ParseInt(rawId);
      if postId.Some? && postId.value < 1 {
        NonPositiveIdMatchesNothing(posts, postId);
      }
      DeleteKeepsIdInvariants(posts, postId);
      var postIndex := FindIndex(posts, postId);
      if postIndex != -1 {
        var deleted := posts[postIndex];
        posts := posts[..postIndex] + posts[postIndex + 1..];
        reply := PostReply(200, deleted);
      } else {
        reply := MessageReply(404, NotFoundMessage);
      }
    }
  }
}
