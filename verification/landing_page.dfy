/** The landing page component (frontend/bigjohn/src/App.js): a three-track
    playlist with back/forward buttons, the Spotify embed it shows, and the
    uploaded-image URL that the news editor may clear. The track steps are the
    pure functions the component hands to its state setter; the class holds
    the component's state. */
module LandingPage {
  import opened Web
  import Recency

  datatype Track = Track(title: string, src: string)

  const Playlist: seq<Track> := [
    Track("JUMP UP", "/assets/YouandIforever-2.mp3"),
    Track("Destiny Killer", "/assets/Big John - Destiny Killer  Edith.mp3"),
    Track("Song 3", "/assets/song3.mp3")
  ]

  /** `handleNextTrack`'s update: from the last track back to the first. */
  function NextTrack(prev: int): (next: int)
    ensures 0 <= prev < |Playlist| ==> next == (prev + 1) % |Playlist|
    ensures 0 <= prev < |Playlist| ==> 0 <= next < |Playlist|
  {
    if prev == |Playlist| - 1 then 0 else prev + 1
  }

  /** `handlePreviousTrack`'s update: from the first track to the last. */
  function PreviousTrack(prev: int): (next: int)
    ensures 0 <= prev < |Playlist| ==> next == (prev - 1) % |Playlist|
    ensures 0 <= prev < |Playlist| ==> 0 <= next < |Playlist|
  {
    if prev == 0 then |Playlist| - 1 else prev - 1
  }

  /** On the playlist the two steps undo each other. */
  lemma TrackStepsInverse(i: int)
    requires 0 <= i < |Playlist|
    ensures PreviousTrack(NextTrack(i)) == i
    ensures NextTrack(PreviousTrack(i)) == i
  {
  }

  /** The back button is disabled on the first track, the forward button on
      the last one. */
  datatype Button = Back | Forward

  predicate Enabled(i: int, b: Button)
  {
    match b
    case Back => i != 0
    case Forward => i != |Playlist| - 1
  }

  /** A click: a disabled button does nothing. */
  function Click(i: int, b: Button): int
  {
    if !Enabled(i, b) then i
    else match b
      case Back => PreviousTrack(i)
      case Forward => NextTrack(i)
  }

  /** Since the wrapping cases sit exactly on the disabled buttons, a click the
      interface lets through moves the cursor by exactly one. */
  lemma EnabledClickMovesByOne(i: int, b: Button)
    requires 0 <= i < |Playlist| && Enabled(i, b)
    ensures Click(i, b) == if b == Back then i - 1 else i + 1
  {
  }

  function Clicks(i: int, bs: seq<Button>): int
    decreases bs
  {
    if bs == [] then i else Clicks(Click(i, bs[0]), bs[1..])
  }

  /** From any track, any sequence of clicks keeps the cursor on the playlist
      and never wraps: it moves by one per click the buttons allow, so the
      distance travelled is at most the number of clicks. */
  lemma {:induction false} ClicksStayOnPlaylist(i: int, bs: seq<Button>)
    requires 0 <= i < |Playlist|
    ensures 0 <= Clicks(i, bs) < |Playlist|
    ensures i - |bs| <= Clicks(i, bs) <= i + |bs|
    decreases bs
  {
    if bs != [] {
      ClicksStayOnPlaylist(Click(i, bs[0]), bs[1..]);
    }
  }

  /** A stored Spotify embed. */
  datatype Embed = Embed(embedUrl: string, uploadDate: int)

  function EmbedDate(e: Embed): int
  {
    e.uploadDate
  }

  /** What `fetch` delivered: a transport failure or a non-ok status (both
      thrown and caught), or a JSON body that is an array or something else. */
  datatype EmbedResponse = NetworkError | NotOk | JsonArray(items: seq<Embed>) | JsonOther

  /** The embed the component shows after `fetchSpotifyEmbed`. The comparator
      `a - b` sorts oldest first, so index 0 is the OLDEST embed, whatever the
      comment above it says; an empty array gives `undefined`, shown as
      nothing. Anything but an array leaves the previous embed in place. */
  function PickEmbed(current: Option<Embed>, response: EmbedResponse): (r: Option<Embed>)
    ensures !response.JsonArray? ==> r == current
    ensures response.JsonArray? && response.items == [] ==> r == None
    ensures response.JsonArray? && response.items != [] ==>
              && r.Some? && r.value in response.items
              && forall e :: e in response.items ==> r.value.uploadDate <= e.uploadDate
    ensures response.JsonArray? && response.items != [] ==>
              exists i :: 0 <= i < |response.items| && r == Some(response.items[i])
                          && forall j :: 0 <= j < i ==> response.items[j].uploadDate > response.items[i].uploadDate
  {
    match response
    case JsonArray(items) =>
      if items == [] then None
      else
        var sortedData := Recency.Sort(items, EmbedDate, Recency.OldestFirst);
        Recency.OldestFirstHeadIsOldest(items, EmbedDate);
        Recency.OldestFirstHeadComesFirst(items, EmbedDate);
        Some(sortedData[0])
    case _ => current
  }

  /** The state of the landing page. */
  class Landing {
    var trackIndex: int
    var spotifyEmbed: Option<Embed>
    var uploadedImageUrl: string

    ghost predicate Valid()
      reads this
    {
      0 <= trackIndex < |Playlist|
    }

    constructor ()
      ensures Valid()
      ensures trackIndex == 0 && spotifyEmbed == None && uploadedImageUrl == ""
    {
      trackIndex := 0;
      spotifyEmbed := None;
      uploadedImageUrl := "";
    }

    /** The track handed to the media player. */
    function CurrentTrack(): (t: Track)
      requires Valid()
      reads this
      ensures t in Playlist
    {
      Playlist[trackIndex]
    }

    method HandleNextTrack()
      requires Valid()
      modifies this`trackIndex
      ensures Valid() && trackIndex == NextTrack(old(trackIndex))
    {
      trackIndex := NextTrack(trackIndex);
    }

    method HandlePreviousTrack()
      requires Valid()
      modifies this`trackIndex
      ensures Valid() && trackIndex == PreviousTrack(old(trackIndex))
    {
      trackIndex := PreviousTrack(trackIndex);
    }

    method FetchSpotifyEmbed(response: EmbedResponse)
      modifies this`spotifyEmbed
      ensures spotifyEmbed == PickEmbed(old(spotifyEmbed), response)
    {
      match response {
        case JsonArray(items) =>
          spotifyEmbed := PickEmbed(spotifyEmbed, response);
        case _ =>
      }
    }

    /** The `setUploadedImageUrl` prop passed to the news editor. */
    method SetUploadedImageUrl(url: string)
      modifies this`uploadedImageUrl
      ensures uploadedImageUrl == url
    {
      uploadedImageUrl := url;
    }
  }
}
