/** The editor page (frontend/bigjohn/src/components/NewsEditor.js). Its
    state is a set of independent fields, each updated by its own setter; the
    class `Editor` has those fields and one method per handler, and every
    method's `modifies` names exactly the fields its handler sets. Requests are
    returned as values; the outcome of the token request and of the request
    itself is a parameter. A handler that re-fetches after a write does so
    without waiting, so the re-fetch is a separate call of the matching
    `Fetch...` method. */
module NewsEditor {
  import opened Web
  import Recency
  import NewsFeed
  import VipArea
  import LandingPage

  /** What the rich-text editor applied to a document. */
  datatype DocChange =
    | InlineStyle(style: string)
    | BlockType(blockType: string)
    | KeyCommand(command: string)
    | LinkEntity(url: string)
    | ImageBlock(src: string)

  /** The editor's document, kept opaque: an empty document, one parsed from
      a stored raw string, one the editor component handed back, or one of
      these with a change applied. */
  datatype Doc =
    | EmptyDoc
    | FromRaw(raw: string)
    | Typed(revision: nat)
    | Changed(base: Doc, change: DocChange)

  /** A file picked in a file input. */
  datatype File = File(name: string)

  datatype Verb = Get | Post | Put | Delete

  /** One part of a `FormData`. */
  datatype FormPart = TextPart(name: string, text: string) | FilePart(name: string, file: File)

  /** A request body: the news post JSON (its `content` is the serialized
      document), the embed JSON, or a multipart form. */
  datatype Payload =
    | NoPayload
    | NewsPayload(title: string, content: Doc, imageUrl: string, link: string)
    | EmbedPayload(embedUrl: string)
    | FormPayload(parts: seq<FormPart>)

  datatype Request = Request(verb: Verb, url: string, payload: Payload)

  const NewsUrl := "http://localhost:8080/api/news"
  const SpotifyUrl := "http://localhost:8080/api/spotify"
  const VipUrl := "http://localhost:8080/api/vip"

  /** How a possibly undefined id reads inside a template literal. */
  function IdSegment(id: Option<string>): string
  {
    match id
    case None => "undefined"
    case Some(s) => s
  }

  /** The request `handleSave` issues: a `PUT` to the post being edited
      exactly when `editingPostId` is truthy, otherwise a `POST` of a new
      post; the body is the same either way. */
  function SaveRequest(editingPostId: Option<string>, title: string, doc: Doc, imageUrl: string, link: string): (r: Request)
    ensures r.verb == Put <==> Truthy(editingPostId)
    ensures r.verb == Put ==> r.url == NewsUrl + "/" + editingPostId.value
    ensures r.verb != Put ==> r.verb == Post && r.url == NewsUrl
    ensures r.payload == NewsPayload(title, doc, imageUrl, link)
  {
    var postData := NewsPayload(title, doc, imageUrl, link);
    if Truthy(editingPostId) then
      Request(Put, NewsUrl + "/" + editingPostId.value, postData)
    else
      Request(Post, NewsUrl, postData)
  }

  /** Appends a file part when a file is selected. */
  function AppendIfSelected(parts: seq<FormPart>, name: string, file: Option<File>): seq<FormPart>
  {
    match file
    case None => parts
    case Some(f) => parts + [FilePart(name, f)]
  }

  /** The VIP form: title and description always, then an image, video and
      audio part each exactly when that file is selected, and nothing else. */
  function VipForm(title: string, description: string, image: Option<File>, video: Option<File>, audio: Option<File>): (parts: seq<FormPart>)
    ensures |parts| >= 2
    ensures parts[0] == TextPart("title", title) && parts[1] == TextPart("description", description)
    ensures forall f :: FilePart("image", f) in parts <==> image == Some(f)
    ensures forall f :: FilePart("video", f) in parts <==> video == Some(f)
    ensures forall f :: FilePart("audio", f) in parts <==> audio == Some(f)
    ensures forall k :: 2 <= k < |parts| ==> parts[k].FilePart?
    ensures |parts| == 2 + (if image.Some? then 1 else 0) + (if video.Some? then 1 else 0)
                         + (if audio.Some? then 1 else 0)
  {
    assert "image"[0] == 'i' && "video"[0] == 'v' && "audio"[0] == 'a';
    var formData := [TextPart("title", title), TextPart("description", description)];
    var formData := AppendIfSelected(formData, "image", image);
    var formData := AppendIfSelected(formData, "video", video);
    AppendIfSelected(formData, "audio", audio)
  }

  /** The state of the editor page. `host` is the landing page whose
      `setUploadedImageUrl` was passed down as a prop. */
  class Editor {
    var doc: Doc
    var selectedImage: Option<File>
    var selectedVideo: Option<File>
    var selectedAudio: Option<File>
    var title: string
    var posts: seq<NewsFeed.FeedPost>
    var editingPostId: Option<string>
    var linkDialogOpen: bool
    var vipPosts: seq<VipArea.VipPost>
    var link: string
    var imageDialogOpen: bool
    var imageUrl: string
    var uploadDialogOpen: bool
    var selectedFile: Option<File>
    var spotifyEmbedUrl: string
    var spotifyEmbeds: seq<LandingPage.Embed>
    var description: string
    const host: LandingPage.Landing

    /** The post list only ever holds a newest-first selection of at most five.
        `FetchPosts` is the only method whose `modifies` clause names `posts`,
        so every other method keeps this as it found it. */
    ghost predicate Valid()
      reads this
    {
      |posts| <= NewsFeed.FeedSize && Recency.Sorted(posts, NewsFeed.PostDate, Recency.NewestFirst)
    }

    constructor (host: LandingPage.Landing)
      ensures Valid() && this.host == host
      ensures doc == EmptyDoc && title == "" && link == "" && description == ""
      ensures editingPostId == None && imageUrl == "" && spotifyEmbedUrl == ""
      ensures selectedImage == None && selectedVideo == None && selectedAudio == None && selectedFile == None
      ensures !linkDialogOpen && !imageDialogOpen && !uploadDialogOpen
      ensures posts == [] && vipPosts == [] && spotifyEmbeds == []
    {
      this.host := host;
      doc := EmptyDoc;
      selectedImage, selectedVideo, selectedAudio := None, None, None;
      title := "";
      posts := [];
      editingPostId := None;
      linkDialogOpen := false;
      vipPosts := [];
      link := "";
      imageDialogOpen := false;
      imageUrl := "";
      uploadDialogOpen := false;
      selectedFile := None;
      spotifyEmbedUrl := "";
      spotifyEmbeds := [];
      description := "";
    }

    /** The news list as rendered: the render sorts it newest first again,
        in place, which leaves it as it is. */
    function RenderedPosts(): (r: seq<NewsFeed.FeedPost>)
      requires Valid()
      reads this
      ensures r == posts
    {
      Recency.SortKeepsSorted(posts, NewsFeed.PostDate, Recency.NewestFirst);
      Recency.Sort(posts, NewsFeed.PostDate, Recency.NewestFirst)
    }

    /** The VIP list as rendered: sorted newest first, none dropped. */
    function RenderedVipPosts(): (r: seq<VipArea.VipPost>)
      reads this
      ensures multiset(r) == multiset(vipPosts)
      ensures Recency.Sorted(r, VipArea.VipDate, Recency.NewestFirst)
    {
      Recency.Sort(vipPosts, VipArea.VipDate, Recency.NewestFirst)
    }

    method FetchPosts(response: Fetch<seq<NewsFeed.FeedPost>>)
      requires Valid()
      modifies this`posts
      ensures Valid()
      ensures posts == NewsFeed.FetchedPosts(old(posts), response)
    {
      match response {
        case Fetched(data) =>
          posts := NewsFeed.LatestPosts(data);
        case Failed =>
      }
    }

    method FetchSpotifyEmbeds(response: Fetch<seq<LandingPage.Embed>>)
      modifies this`spotifyEmbeds
      ensures spotifyEmbeds == if response.Fetched? then response.data else old(spotifyEmbeds)
    {
      if response.Fetched? {
        spotifyEmbeds := response.data;
      }
    }

    method FetchVipPosts(response: Fetch<seq<VipArea.VipPost>>)
      modifies this`vipPosts
      ensures vipPosts == if response.Fetched? then response.data else old(vipPosts)
    {
      if response.Fetched? {
        vipPosts := response.data;
      }
    }

    method HandleEditorChange(state: Doc)
      modifies this`doc
      ensures doc == state
    {
      doc := state;
    }

    method HandleTitleChange(value: string)
      modifies this`title
      ensures title == value
    {
      title := value;
    }

    /** Saves the post; on success clears the editor (but not `imageUrl`). */
    method HandleSave(outcome: Outcome) returns (sent: Option<Request>)
      modifies this`title, this`doc, this`link, this`editingPostId
      ensures sent == if RequestSent(outcome)
                      then Some(SaveRequest(old(editingPostId), old(title), old(doc), imageUrl, old(link)))
                      else None
      ensures outcome == Succeeded ==> title == "" && doc == EmptyDoc && link == "" && editingPostId == None
      ensures outcome != Succeeded ==>
                title == old(title) && doc == old(doc) && link == old(link) && editingPostId == old(editingPostId)
    {
      sent := None;
      if outcome != TokenFailed {
        sent := Some(SaveRequest(editingPostId, title, doc, imageUrl, link));
      }
      if outcome == Succeeded {
        ResetEditor();
      }
    }

    /** Loads a post into the form for editing. */
    method HandleEdit(post: NewsFeed.FeedPost)
      modifies this`title, this`doc, this`link, this`editingPostId
      ensures title == post.title && doc == FromRaw(post.content)
      ensures link == post.link && editingPostId == post.dbId
    {
      title := post.title;
      doc := FromRaw(post.content);
      link := post.link;
      editingPostId := post.dbId;
    }

    /** Deletes a news post after confirmation; declining sends nothing.
        No state changes either way (the list is re-fetched afterwards). */
    method HandleDelete(postId: Option<string>, confirmed: bool, outcome: Outcome) returns (sent: Option<Request>)
      ensures sent.Some? <==> confirmed && RequestSent(outcome)
      ensures sent.Some? ==> sent.value == Request(Delete, NewsUrl + "/" + IdSegment(postId), NoPayload)
    {
      if !confirmed {
        return None;
      }
      sent := None;
      if outcome != TokenFailed {
        sent := Some(Request(Delete, NewsUrl + "/" + IdSegment(postId), NoPayload));
      }
    }

    /** Loads a VIP post's title and description into the VIP form and
        clears the inline-upload file. */
    method HandleVipEdit(post: VipArea.VipPost)
      modifies this`title, this`description, this`selectedFile
      ensures title == post.title && description == post.description && selectedFile == None
    {
      title := post.title;
      description := post.description;
      selectedFile := None;
    }

    /** Deletes a VIP post after confirmation; declining sends nothing. */
    method HandleVipDelete(postId: Option<string>, confirmed: bool, outcome: Outcome) returns (sent: Option<Request>)
      ensures sent.Some? <==> confirmed && RequestSent(outcome)
      ensures sent.Some? ==> sent.value == Request(Delete, VipUrl + "/" + IdSegment(postId), NoPayload)
    {
      if !confirmed {
        return None;
      }
      sent := None;
      if outcome != TokenFailed {
        sent := Some(Request(Delete, VipUrl + "/" + IdSegment(postId), NoPayload));
      }
    }

    /** A key command the editor library turns into a new document is
        applied and reported handled; otherwise nothing changes. */
    method HandleKeyCommand(command: string, newState: Option<Doc>) returns (result: string)
      modifies this`doc
      ensures result == (if newState.Some? then "handled" else "not-handled")
      ensures doc == if newState.Some? then newState.value else old(doc)
    {
      if newState.Some? {
        doc := newState.value;
        return "handled";
      }
      return "not-handled";
    }

    method ToggleInlineStyle(style: string)
      modifies this`doc
      ensures doc == Changed(old(doc), InlineStyle(style))
    {
      doc := Changed(doc, InlineStyle(style));
    }

    method ToggleBlockType(blockType: string)
      modifies this`doc
      ensures doc == Changed(old(doc), BlockType(blockType))
    {
      doc := Changed(doc, BlockType(blockType));
    }

    /** Clears the news form; the inline image URL stays. */
    method ResetEditor()
      modifies this`title, this`doc, this`link, this`editingPostId
      ensures title == "" && doc == EmptyDoc && link == "" && editingPostId == None
    {
      title := "";
      doc := EmptyDoc;
      link := "";
      editingPostId := None;
    }

    method PromptForLink()
      modifies this`linkDialogOpen
      ensures linkDialogOpen
    {
      linkDialogOpen := true;
    }

    method CloseLinkDialog()
      modifies this`linkDialogOpen
      ensures !linkDialogOpen
    {
      linkDialogOpen := false;
    }

    /** The link dialog's URL field. It writes `link`, the same field the
        post's own link is saved from. */
    method HandleLinkChange(value: string)
      modifies this`link
      ensures link == value
    {
      link := value;
    }

    /** Turns the selection into a link to `link`, closes the dialog and
        clears `link`, which is also the post's link field. */
    method ConfirmLink()
      modifies this`doc, this`linkDialogOpen, this`link
      ensures doc == Changed(old(doc), LinkEntity(old(link)))
      ensures !linkDialogOpen && link == ""
    {
      doc := Changed(doc, LinkEntity(link));
      linkDialogOpen := false;
      link := "";
    }

    method PromptForImage()
      modifies this`imageDialogOpen
      ensures imageDialogOpen
    {
      imageDialogOpen := true;
    }

    method CloseImageDialog()
      modifies this`imageDialogOpen
      ensures !imageDialogOpen
    {
      imageDialogOpen := false;
    }

    /** The image dialog's URL field. It writes `imageUrl`, the URL the next
        save also sends. */
    method HandleImageUrlChange(value: string)
      modifies this`imageUrl
      ensures imageUrl == value
    {
      imageUrl := value;
    }

    /** Inserts an image block for `imageUrl`, closes the dialog and clears
        `imageUrl`, which is also the URL the next save sends. */
    method ConfirmImage()
      modifies this`doc, this`imageDialogOpen, this`imageUrl
      ensures doc == Changed(old(doc), ImageBlock(old(imageUrl)))
      ensures !imageDialogOpen && imageUrl == ""
    {
      doc := Changed(doc, ImageBlock(imageUrl));
      imageDialogOpen := false;
      imageUrl := "";
    }

    /** `e.target.files[0]`, `undefined` when nothing was picked. */
    method HandleImageChange(file: Option<File>)
      modifies this`selectedImage
      ensures selectedImage == file
    {
      selectedImage := file;
    }

    method HandleVideoChange(file: Option<File>)
      modifies this`selectedVideo
      ensures selectedVideo == file
    {
      selectedVideo := file;
    }

    method HandleAudioChange(file: Option<File>)
      modifies this`selectedAudio
      ensures selectedAudio == file
    {
      selectedAudio := file;
    }

    method PromptForUpload()
      modifies this`uploadDialogOpen
      ensures uploadDialogOpen
    {
      uploadDialogOpen := true;
    }

    method CloseUploadDialog()
      modifies this`uploadDialogOpen
      ensures !uploadDialogOpen
    {
      uploadDialogOpen := false;
    }

    method HandleFileChange(file: Option<File>)
      modifies this`selectedFile
      ensures selectedFile == file
    {
      selectedFile := file;
    }

    /** With no file selected nothing happens. Otherwise the upload starts;
        `location` is what the storage callback reports (`None` for an
        error, which changes nothing). */
    method UploadImage(location: Option<string>) returns (started: bool)
      modifies this`imageUrl, this`uploadDialogOpen, this`selectedFile
      ensures started <==> old(selectedFile).Some?
      ensures started && location.Some? ==>
                imageUrl == location.value && !uploadDialogOpen && selectedFile == None
      ensures !(started && location.Some?) ==>
                imageUrl == old(imageUrl) && uploadDialogOpen == old(uploadDialogOpen) && selectedFile == old(selectedFile)
    {
      if selectedFile.None? {
        return false;
      }
      started := true;
      if location.Some? {
        imageUrl := location.value;
        uploadDialogOpen := false;
        selectedFile := None;
      }
    }

    method HandleSpotifyEmbedChange(value: string)
      modifies this`spotifyEmbedUrl
      ensures spotifyEmbedUrl == value
    {
      spotifyEmbedUrl := value;
    }

    /** Posts the embed; on success clears the input. */
    method SaveSpotifyEmbed(outcome: Outcome) returns (sent: Option<Request>)
      modifies this`spotifyEmbedUrl
      ensures sent == if RequestSent(outcome)
                      then Some(Request(Post, SpotifyUrl, EmbedPayload(old(spotifyEmbedUrl))))
                      else None
      ensures spotifyEmbedUrl == if outcome == Succeeded then "" else old(spotifyEmbedUrl)
    {
      sent := None;
      if outcome != TokenFailed {
        sent := Some(Request(Post, SpotifyUrl, EmbedPayload(spotifyEmbedUrl)));
      }
      if outcome == Succeeded {
        spotifyEmbedUrl := "";
      }
    }

    /** Deletes an embed, with no confirmation step. */
    method HandleSpotifyDelete(id: Option<string>, outcome: Outcome) returns (sent: Option<Request>)
      ensures sent.Some? <==> RequestSent(outcome)
      ensures sent.Some? ==> sent.value == Request(Delete, SpotifyUrl + "/" + IdSegment(id), NoPayload)
    {
      sent := None;
      if outcome != TokenFailed {
        sent := Some(Request(Delete, SpotifyUrl + "/" + IdSegment(id), NoPayload));
      }
    }

    method HandleDescriptionChange(value: string)
      modifies this`description
      ensures description == value
    {
      description := value;
    }

    /** Sends the VIP form; on success clears the landing page's uploaded
        image URL, the title, the description and the three file choices. */
    method HandleImageFormSubmit(outcome: Outcome) returns (sent: Option<Request>)
      modifies this`title, this`description, this`selectedImage, this`selectedVideo, this`selectedAudio
      modifies host`uploadedImageUrl
      ensures sent == if RequestSent(outcome)
                      then Some(Request(Post, VipUrl, FormPayload(
                             VipForm(old(title), old(description), old(selectedImage), old(selectedVideo), old(selectedAudio)))))
                      else None
      ensures outcome == Succeeded ==>
                && host.uploadedImageUrl == "" && title == "" && description == ""
                && selectedImage == None && selectedVideo == None && selectedAudio == None
      ensures outcome != Succeeded ==>
                && host.uploadedImageUrl == old(host.uploadedImageUrl)
                && title == old(title) && description == old(description)
                && selectedImage == old(selectedImage) && selectedVideo == old(selectedVideo)
                && selectedAudio == old(selectedAudio)
    {
      var formData := VipForm(title, description, selectedImage, selectedVideo, selectedAudio);
      sent := None;
      if outcome != TokenFailed {
        sent := Some(Request(Post, VipUrl, FormPayload(formData)));
      }
      if outcome == Succeeded {
        host.SetUploadedImageUrl("");
        title := "";
        description := "";
        selectedImage := None;
        selectedVideo := None;
        selectedAudio := None;
      }
    }
  }
}
