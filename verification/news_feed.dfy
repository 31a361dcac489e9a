/** The public news feed (frontend/bigjohn/src/components/News.js): it
    fetches every news post, sorts them newest first and keeps the first
    five. The same selection feeds the editor's "last 5 posts" list. */
module NewsFeed {
  import opened Web
  import Recency

  /** A news post as the client receives it. `dbId` is the store's `_id`,
      absent (`undefined`) when the server does not send one; `content` is
      the serialized rich-text document, opaque here. */
  datatype FeedPost = FeedPost(
    dbId: Option<string>,
    title: string,
    content: string,
    link: string,
    imageUrl: string,
    uploadDate: int)

  function PostDate(p: FeedPost): int
  {
    p.uploadDate
  }

  /** The number of posts the feed shows (`slice(0, 5)`). */
  const FeedSize: nat := 5

  /** `data.sort(newest first).slice(0, 5)`. */
  function LatestPosts(data: seq<FeedPost>): (r: seq<FeedPost>)
    ensures |r| <= FeedSize
    ensures Recency.Sorted(r, PostDate, Recency.NewestFirst)
    ensures multiset(r) <= multiset(data)
    ensures |data| <= FeedSize ==> multiset(r) == multiset(data)
    ensures |data| >= FeedSize ==> |r| == FeedSize
  {
    Recency.TopNewest(data, PostDate, FeedSize)
  }

  /** Every fetched post that is left out is no newer than every post shown. */
  lemma LatestPostsAreNewest(data: seq<FeedPost>)
    ensures forall x, y :: x in multiset(data) - multiset(LatestPosts(data)) && y in LatestPosts(data)
                           ==> x.uploadDate <= y.uploadDate
  {
    Recency.TopNewestDropsOnlyOlder(data, PostDate, FeedSize);
  }

  /** What `fetchPosts` stores: the latest five on success, the previous list
      on failure. */
  function FetchedPosts(current: seq<FeedPost>, response: Fetch<seq<FeedPost>>): (r: seq<FeedPost>)
    ensures response.Failed? ==> r == current
    ensures response.Fetched? ==> |r| <= FeedSize && multiset(r) <= multiset(response.data)
    ensures response.Fetched? ==> Recency.Sorted(r, PostDate, Recency.NewestFirst)
    ensures response.Fetched? && |response.data| >= FeedSize ==> |r| == FeedSize
    ensures response.Fetched? && |response.data| <= FeedSize ==> multiset(r) == multiset(response.data)
  {
    match response
    case Failed => current
    case Fetched(data) => LatestPosts(data)
  }

  /** The state of the feed component. */
  class Feed {
    var posts: seq<FeedPost>

    constructor ()
      ensures posts == []
    {
      posts := [];
    }

    method FetchPosts(response: Fetch<seq<FeedPost>>)
      modifies this`posts
      ensures posts == FetchedPosts(old(posts), response)
    {
      match response {
        case Fetched(data) =>
          var sortedPosts := Recency.Sort(data, PostDate, Recency.NewestFirst);
          posts := sortedPosts[..Recency.Min(FeedSize, |sortedPosts|)];
        case Failed =>
      }
    }
  }
}
