/** The VIP members' page (frontend/bigjohn/src/pages/VipArea.js): the VIP
    posts, newest first, and two cursors (audio, video) stepped by back and
    forward buttons. A cursor wraps modulo the number of posts that have an
    audio (video) URL; the class holds the component's state. */
module VipArea {
  import opened Web
  import Recency

  /** The three optional media URLs of a VIP post. */
  datatype MediaUrls = MediaUrls(imageUrl: Option<string>, videoUrl: Option<string>, audioUrl: Option<string>)

  datatype VipPost = VipPost(
    dbId: Option<string>,
    title: string,
    description: string,
    mediaUrl: MediaUrls,
    uploadDate: int)

  function VipDate(p: VipPost): int
  {
    p.uploadDate
  }

  predicate HasAudio(p: VipPost)
  {
    Truthy(p.mediaUrl.audioUrl)
  }

  predicate HasVideo(p: VipPost)
  {
    Truthy(p.mediaUrl.videoUrl)
  }

  /** `posts.filter(post => post.mediaUrl.audioUrl)`. */
  function WithAudio(posts: seq<VipPost>): (r: seq<VipPost>)
    ensures |r| <= |posts|
    ensures forall p :: p in r ==> p in posts && HasAudio(p)
    ensures forall p :: p in posts && HasAudio(p) ==> p in r
    ensures forall p :: multiset(r)[p] == if HasAudio(p) then multiset(posts)[p] else 0
  {
    if posts == [] then []
    else
      assert posts == [posts[0]] + posts[1..];
      if HasAudio(posts[0]) then [posts[0]] + WithAudio(posts[1..])
      else WithAudio(posts[1..])
  }

  /** `posts.filter(post => post.mediaUrl.videoUrl)`. */
  function WithVideo(posts: seq<VipPost>): (r: seq<VipPost>)
    ensures |r| <= |posts|
    ensures forall p :: p in r ==> p in posts && HasVideo(p)
    ensures forall p :: p in posts && HasVideo(p) ==> p in r
    ensures forall p :: multiset(r)[p] == if HasVideo(p) then multiset(posts)[p] else 0
  {
    if posts == [] then []
    else
      assert posts == [posts[0]] + posts[1..];
      if HasVideo(posts[0]) then [posts[0]] + WithVideo(posts[1..])
      else WithVideo(posts[1..])
  }

  /** The forward step of either cursor over `count` entries: the last index
      goes back to 0. */
  function NextCursor(prev: int, count: int): (next: int)
    ensures 0 <= prev < count ==> next == (prev + 1) % count
  {
    if prev == count - 1 then 0 else prev + 1
  }

  /** The backward step of either cursor: index 0 goes to the last index. */
  function PreviousCursor(prev: int, count: int): (next: int)
    ensures 0 <= prev < count ==> next == (prev - 1) % count
  {
    if prev == 0 then count - 1 else prev - 1
  }

  /** With at least one entry, both steps keep a cursor in range. */
  lemma CursorStaysInRange(prev: int, count: int)
    requires 0 <= prev < count
    ensures 0 <= NextCursor(prev, count) < count
    ensures 0 <= PreviousCursor(prev, count) < count
  {
  }

  /** With no entry the range is empty and both steps leave it: back from 0
      gives -1, forward from 0 gives 1. */
  lemma EmptyCountLeavesRange()
    ensures PreviousCursor(0, 0) == -1
    ensures NextCursor(0, 0) == 1
  {
  }

  /** Once a cursor is past the end (the list shrank under it after a
      re-fetch), forward never brings it back: it only grows. */
  lemma PastEndRunsAway(prev: int, count: int)
    requires prev >= count
    ensures NextCursor(prev, count) == prev + 1
  {
  }

  /** The audio buttons are drawn only inside a post with an audio URL, so
      whenever one can be clicked the count is at least one. */
  lemma {:induction false} AudioButtonsMeanAudioCount(posts: seq<VipPost>, k: int)
    requires 0 <= k < |posts| && HasAudio(posts[k])
    ensures |WithAudio(posts)| >= 1
  {
    if k > 0 && !HasAudio(posts[0]) {
      AudioButtonsMeanAudioCount(posts[1..], k - 1);
    }
  }

  /** The same for the video buttons. */
  lemma {:induction false} VideoButtonsMeanVideoCount(posts: seq<VipPost>, k: int)
    requires 0 <= k < |posts| && HasVideo(posts[k])
    ensures |WithVideo(posts)| >= 1
  {
    if k > 0 && !HasVideo(posts[0]) {
      VideoButtonsMeanVideoCount(posts[1..], k - 1);
    }
  }

  /** What `fetchVipContent` stores: the fetched posts sorted newest first,
      none dropped; a failure keeps the previous list. */
  function FetchedVipPosts(current: seq<VipPost>, response: Fetch<seq<VipPost>>): (r: seq<VipPost>)
    ensures response.Failed? ==> r == current
    ensures response.Fetched? ==> multiset(r) == multiset(response.data)
    ensures response.Fetched? ==> Recency.Sorted(r, VipDate, Recency.NewestFirst)
  {
    match response
    case Failed => current
    case Fetched(data) => Recency.Sort(data, VipDate, Recency.NewestFirst)
  }

  /** The state of the VIP page. */
  class VipView {
    var posts: seq<VipPost>
    var audioIndex: int
    var videoIndex: int

    constructor ()
      ensures posts == [] && audioIndex == 0 && videoIndex == 0
    {
      posts := [];
      audioIndex := 0;
      videoIndex := 0;
    }

    method FetchVipContent(response: Fetch<seq<VipPost>>)
      modifies this`posts
      ensures posts == FetchedVipPosts(old(posts), response)
    {
      match response {
        case Fetched(data) =>
          var sortedPosts := Recency.Sort(data, VipDate, Recency.NewestFirst);
          posts := sortedPosts;
        case Failed =>
      }
    }

    method HandleNextAudio()
      modifies this`audioIndex
      ensures audioIndex == NextCursor(old(audioIndex), |WithAudio(posts)|)
      ensures 0 <= old(audioIndex) < |WithAudio(posts)| ==> 0 <= audioIndex < |WithAudio(posts)|
    {
      audioIndex := NextCursor(audioIndex, |WithAudio(posts)|);
    }

    method HandlePreviousAudio()
      modifies this`audioIndex
      ensures audioIndex == PreviousCursor(old(audioIndex), |WithAudio(posts)|)
      ensures 0 <= old(audioIndex) < |WithAudio(posts)| ==> 0 <= audioIndex < |WithAudio(posts)|
    {
      audioIndex := PreviousCursor(audioIndex, |WithAudio(posts)|);
    }

    method HandleNextVideo()
      modifies this`videoIndex
      ensures videoIndex == NextCursor(old(videoIndex), |WithVideo(posts)|)
      ensures 0 <= old(videoIndex) < |WithVideo(posts)| ==> 0 <= videoIndex < |WithVideo(posts)|
    {
      videoIndex := NextCursor(videoIndex, |WithVideo(posts)|);
    }

    method HandlePreviousVideo()
      modifies this`videoIndex
      ensures videoIndex == PreviousCursor(old(videoIndex), |WithVideo(posts)|)
      ensures 0 <= old(videoIndex) < |WithVideo(posts)| ==> 0 <= videoIndex < |WithVideo(posts)|
    {
      videoIndex := PreviousCursor(videoIndex, |WithVideo(posts)|);
    }
  }
}
