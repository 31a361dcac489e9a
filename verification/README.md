# FrontDoor news site: a Dafny model of its stateful core

FrontDoor is a small artist-promotion site: an Express server with an in-memory news table, and a React client made of a landing page with a playlist and a Spotify embed, a public news feed, a VIP members' page, a password-gated editor and the gate in front of it. This project models the parts of that code whose behaviour can be stated exactly:

- **Server news table** (`news_server.dfy`, module `NewsServer`). The module-level array of posts behind `GET/POST/PUT/DELETE /api/news`. Pure functions give each handler's new table and reply (`ListOp`, `CreateOp`, `ReplaceOp`, `DeleteOp`). Replace and delete are stated for the parsed id (`None` for NaN). The class `NewsTable` updates its table in place as the routes do: its methods first run the `:id` path segment through a model of JavaScript's `parseInt(s, 10)` (`int_parsing.dfy`, module `IntParsing`), and each is proved equal to the matching function. The model proves that ids do **not** stay unique: a delete followed by a create can reuse an id.
- **Newest-first selection** (`recency.dfy`, module `Recency`). `Array.prototype.sort` is stable, so it is modelled as a stable insertion sort by upload date, in either direction. `TopNewest` adds the `slice(0, 5)` step. The news feed, the editor, the VIP page and the Spotify pick all use it.
- **Landing page** (`landing_page.dfy`, module `LandingPage`). The playlist cursor steps, the back/forward buttons with their disabled states, and the choice of which Spotify embed to show.
- **VIP page** (`vip_area.dfy`, module `VipArea`). The VIP list sorted newest first, and the audio and video cursors. Each cursor wraps modulo the number of posts with a truthy audio or video URL.
- **News feed** (`news_feed.dfy`, module `NewsFeed`). The five newest posts.
- **Editor** (`news_editor.dfy`, module `NewsEditor`). Every state field of the component becomes a field of the class `Editor`, and every handler becomes a method whose `modifies` clause names exactly the fields that handler sets. Outgoing requests (PUT or POST on save, the confirm-guarded deletes, the multipart VIP form) are returned as values.
- **Password gate** (`password_gate.dfy`, module `PasswordGate`). A locked/unlocked machine seeded from session storage. The lemmas prove that it never relocks, that the session flag always agrees with the state, and that only the exact configured password opens it.
- **Shared shapes** (`web.dfy`, module `Web`). Optional values, fetch and request outcomes, and JavaScript truthiness of optional strings.

Conventions:
- Timestamps are integers, and each clock reading is a parameter: `now` for a handler, and one reading per sample post at server start-up.
- A network call is a parameter that gives its outcome: `Fetch<T>` for a read, and `Outcome` for a write. The token request and the write request can fail separately.
- After a write, the client re-fetches without waiting for the result. That re-fetch is a separate call to the matching `Fetch...` method.
- Rich-text documents are opaque values (`NewsEditor.Doc`).

Where the code does something other than what a reader would expect, the model follows the code:
- A reader would expect post ids to be unique. The server numbers a new post `length + 1`, so after a delete it can repeat an id (`NewsServer.DeleteThenCreateRepeatsId`).
- A reader would expect every list to be ordered by upload date, newest first. The landing page's comparator `a - b` sorts oldest first, although the comment above it says descending. So the landing page shows the **oldest** embed (`LandingPage.PickEmbed`).
- The client addresses posts by `_id`, but the in-memory server's posts have only `id`. Against that server, `handleEdit` stores an undefined id, so a later save POSTs a new post instead of PUTting. A delete is sent to `/api/news/undefined`, which parses to NaN and is answered 404 (`IntParsing.UndefinedIsNaN`, `NewsServer.NaNIdNotFound`).
- The VIP cursors are never read when the page renders (each post draws its own player). `VipArea.PastEndRunsAway` shows that after a re-fetch shrinks the list, the forward step can leave the range for good.

## Model

| member | source | states |
|---|---|---|
| `NewsServer.FindIndex` | backend/server.js:74 | `findIndex`: the first post whose id equals the parsed id, or -1 exactly when none does; a NaN id matches nothing |
| `NewsServer.ListOp` | backend/server.js:56-58 | the list reply is the table exactly as stored, in insertion order, and the table is unchanged |
| `NewsServer.CreateOp` | backend/server.js:60-70 | one post is appended at the end, all earlier posts unchanged; it has id = old length + 1, title/content/link from the body, upload date `now`, no image URL; reply 201 |
| `NewsServer.ReplaceOp` | backend/server.js:74-88 | for the parsed id: on a match, only the first matching post changes: new title, content, link and upload date, same id; the length stays and every other post is untouched; reply 200 with it. Otherwise 404 "Post not found" and the table unchanged |
| `NewsServer.DeleteOp` | backend/server.js:92-100 | for the parsed id: on a match, exactly the first matching post is removed and returned; the others keep their order and the length drops by one. Otherwise 404 "Post not found" and the table unchanged |
| `NewsServer.ReplaceKeepsIds` | backend/server.js:77-83 | replace never changes the sequence of ids |
| `NewsServer.NonPositiveIdNotFound` | backend/server.js:72-100 | on a table whose ids are all at least 1, an id below 1 is answered 404 by replace and delete, and the table is left alone |
| `NewsServer.NaNIdNotFound` | backend/server.js:73-99 | a path id that parses to NaN is answered 404 by replace and delete, and the table is left alone |
| `NewsServer.DecimalIdFindsPost` | backend/server.js:73-74 | a request for the decimal form of an existing id finds a post with that id |
| `NewsServer.DeleteTwiceNotFound` | backend/server.js:90-99 | with unique ids, deleting the same id a second time is answered 404 and changes nothing |
| `NewsServer.DeleteKeepsIdInvariants` | backend/server.js:94-96 | delete keeps ids unique and keeps them positive |
| `NewsServer.CreateReplaceKeepPositiveIds` | backend/server.js:60-84 | create and replace keep every id at least 1 |
| `NewsServer.CreateKeepsUniqueIff` | backend/server.js:60-68 | on a table with unique ids, create keeps them unique if and only if no post already has id length + 1 |
| `NewsServer.DenseIdsInvariant` | backend/server.js:38-84 | ids 1..n hold for the start-up table and survive create and replace, and dense ids are unique |
| `NewsServer.InitialNewestFirst` | backend/server.js:38-53 | the two sample posts are stamped by separate `new Date()` calls, so a newest-first sort of the start-up table puts "Second News" first exactly when its reading is later; with equal readings the stable sort keeps "First News" first |
| `NewsServer.DeleteThenCreateRepeatsId` | backend/server.js:60-96 | from ids [1, 2], deleting id 1 and then creating gives ids [2, 2]: uniqueness is lost |
| `NewsServer.OneParsesToOne` | backend/server.js:91 | the path segment "1" is parsed to id 1 |
| `NewsServer.NewsTable.constructor` | backend/server.js:38-53 | the table starts with the two sample posts, ids 1 and 2, each stamped by its own clock reading |
| `NewsServer.NewsTable.List` | backend/server.js:56-58 | the reply lists the stored table |
| `NewsServer.NewsTable.Create` | backend/server.js:60-70 | the push in place yields exactly `CreateOp`'s table and reply; ids stay positive |
| `NewsServer.NewsTable.Replace` | backend/server.js:72-88 | parses the path id, and the indexed assignment in place yields exactly `ReplaceOp`'s table and reply for that id; since the table's ids stay at least 1, an id below 1 is answered 404 |
| `NewsServer.NewsTable.Delete` | backend/server.js:90-100 | parses the path id, and the splice in place yields exactly `DeleteOp`'s table and reply for that id; since the table's ids stay at least 1, an id below 1 is answered 404 |
| `IntParsing.ParseInt` | backend/server.js:73 | `parseInt(s, 10)`: past the leading white space, one optional sign and then the longest run of digits, negated after a minus; NaN exactly when that run is empty |
| `IntParsing.TrimStart` | backend/server.js:73 | `parseInt` first drops the leading white space and line terminators, and only those |
| `IntParsing.DigitPrefix` | backend/server.js:73 | then it reads the longest run of decimal digits |
| `IntParsing.ParseDecimal` | backend/server.js:73 | `parseInt` reads back the decimal form of every integer, even with trailing text that does not start with a digit |
| `IntParsing.ExplicitPlusSign` | backend/server.js:73 | a plus sign in front of the decimal form of a natural number is ignored (`"+7"` parses to 7), with trailing text that does not start with a digit |
| `IntParsing.NoLeadingDigitIsNaN` | backend/server.js:73 | text whose first non-blank character is not a sign or a digit, and a lone sign, give NaN |
| `IntParsing.UndefinedIsNaN` | frontend/bigjohn/src/components/NewsEditor.js:195 | the segment an undefined `_id` produces, "undefined", parses to NaN |
| `IntParsing.LeadingWhiteSpaceIgnored` | backend/server.js:91 | leading white space does not change what `parseInt` returns |
| `Recency.InsertionPoint` | frontend/bigjohn/src/pages/VipArea.js:40-42 | the place a new element takes: behind every element it must not precede, and in front of the first one it may precede, so in front of every element with an equal date |
| `Recency.Insert` | frontend/bigjohn/src/pages/VipArea.js:40-42 | one insertion step: a permutation that keeps a sorted list sorted |
| `Recency.InsertIsStable` | frontend/bigjohn/src/pages/VipArea.js:40-42 | the insertion step is the list with the element spliced in at `InsertionPoint`, every other element in its old order: elements with equal dates keep their input order, as in the stable `Array.prototype.sort` |
| `Recency.Sort` | frontend/bigjohn/src/pages/VipArea.js:40-42 | sorting by upload date gives a permutation of the input (nothing dropped), sorted in the requested direction |
| `Recency.SortKeepsSorted` | frontend/bigjohn/src/components/NewsEditor.js:526-527 | sorting a list that is already in order returns it unchanged |
| `Recency.OldestFirstHeadIsOldest` | frontend/bigjohn/src/App.js:63-68 | the first element of the `a - b` sort is in the input and has the minimal upload date |
| `Recency.OldestFirstHeadComesFirst` | frontend/bigjohn/src/App.js:63-68 | because the sort is stable, the first element of the `a - b` sort is the first input element with that date: every element in front of it in the input is strictly newer |
| `Recency.TopNewest` | frontend/bigjohn/src/components/News.js:56-59 | sort newest first, then slice: min(n, length) posts, newest first, all from the input, and all of them when there are at most n |
| `Recency.TopNewestDropsOnlyOlder` | frontend/bigjohn/src/components/News.js:56-59 | every post the slice leaves out is no newer than every post it keeps |
| `LandingPage.NextTrack` | frontend/bigjohn/src/App.js:80-84 | on the playlist the forward step is (i + 1) mod 3 and stays on the playlist; the last index wraps to 0 |
| `LandingPage.PreviousTrack` | frontend/bigjohn/src/App.js:86-90 | on the playlist the back step is (i - 1) mod 3 and stays on the playlist; index 0 wraps to 2 |
| `LandingPage.TrackStepsInverse` | frontend/bigjohn/src/App.js:80-90 | on the playlist, back undoes forward and forward undoes back |
| `LandingPage.EnabledClickMovesByOne` | frontend/bigjohn/src/App.js:106-123 | the buttons are disabled at index 0 and at the last index, so a click that goes through moves by exactly one and never wraps |
| `LandingPage.ClicksStayOnPlaylist` | frontend/bigjohn/src/App.js:98-123 | any sequence of clicks keeps the cursor on the playlist and moves it at most one step per click |
| `LandingPage.PickEmbed` | frontend/bigjohn/src/App.js:57-71 | for an array response the shown embed is the first one in response order with the minimal upload date (the oldest), or none for an empty array; any other response keeps the previous embed |
| `LandingPage.Landing.constructor` | frontend/bigjohn/src/App.js:27-41 | starts on track 0 with no embed and no uploaded image URL |
| `LandingPage.Landing.CurrentTrack` | frontend/bigjohn/src/App.js:98-101 | the player always gets a track of the playlist |
| `LandingPage.Landing.HandleNextTrack` | frontend/bigjohn/src/App.js:80-84 | applies the forward step and keeps the index on the playlist |
| `LandingPage.Landing.HandlePreviousTrack` | frontend/bigjohn/src/App.js:86-90 | applies the back step and keeps the index on the playlist |
| `LandingPage.Landing.FetchSpotifyEmbed` | frontend/bigjohn/src/App.js:44-75 | the shown embed becomes `PickEmbed` of the old one and the response |
| `LandingPage.Landing.SetUploadedImageUrl` | frontend/bigjohn/src/App.js:27 | the uploaded-image URL state takes the given value |
| `VipArea.WithAudio` | frontend/bigjohn/src/pages/VipArea.js:51 | the filter keeps exactly the posts with a truthy audio URL, each as often as it occurs in the input, and drops every other post |
| `VipArea.WithVideo` | frontend/bigjohn/src/pages/VipArea.js:67 | the filter keeps exactly the posts with a truthy video URL, each as often as it occurs in the input, and drops every other post |
| `VipArea.NextCursor` | frontend/bigjohn/src/pages/VipArea.js:49-55 | in range, the forward step is (i + 1) mod count; count - 1 wraps to 0 |
| `VipArea.PreviousCursor` | frontend/bigjohn/src/pages/VipArea.js:57-63 | in range, the back step is (i - 1) mod count; 0 wraps to count - 1 |
| `VipArea.CursorStaysInRange` | frontend/bigjohn/src/pages/VipArea.js:49-79 | with count at least 1 and the index in [0, count), both steps keep the index in range |
| `VipArea.EmptyCountLeavesRange` | frontend/bigjohn/src/pages/VipArea.js:49-63 | with count 0, back from 0 gives -1 and forward from 0 gives 1 |
| `VipArea.PastEndRunsAway` | frontend/bigjohn/src/pages/VipArea.js:49-55 | an index past the end only grows under the forward step |
| `VipArea.AudioButtonsMeanAudioCount` | frontend/bigjohn/src/pages/VipArea.js:122-135 | the audio buttons appear only inside a post with audio, so when they can be clicked the audio count is at least 1 |
| `VipArea.VideoButtonsMeanVideoCount` | frontend/bigjohn/src/pages/VipArea.js:138-155 | the same for the video buttons and the video count |
| `VipArea.FetchedVipPosts` | frontend/bigjohn/src/pages/VipArea.js:27-47 | a successful fetch stores a newest-first permutation of the fetched list; a failure keeps the old list |
| `VipArea.VipView.constructor` | frontend/bigjohn/src/pages/VipArea.js:19-21 | no posts, both cursors at 0 |
| `VipArea.VipView.FetchVipContent` | frontend/bigjohn/src/pages/VipArea.js:27-47 | the post list becomes `FetchedVipPosts` of the old list and the response |
| `VipArea.VipView.HandleNextAudio` | frontend/bigjohn/src/pages/VipArea.js:49-55 | steps the audio cursor forward modulo the audio count, staying in range when it started in range |
| `VipArea.VipView.HandlePreviousAudio` | frontend/bigjohn/src/pages/VipArea.js:57-63 | steps the audio cursor back modulo the audio count, staying in range when it started in range |
| `VipArea.VipView.HandleNextVideo` | frontend/bigjohn/src/pages/VipArea.js:65-71 | steps the video cursor forward modulo the video count, staying in range when it started in range |
| `VipArea.VipView.HandlePreviousVideo` | frontend/bigjohn/src/pages/VipArea.js:73-79 | steps the video cursor back modulo the video count, staying in range when it started in range |
| `NewsFeed.LatestPosts` | frontend/bigjohn/src/components/News.js:56-59 | at most 5 posts, newest first, all from the fetched list; exactly 5 when at least 5 were fetched, and all of them when at most 5 were |
| `NewsFeed.LatestPostsAreNewest` | frontend/bigjohn/src/components/News.js:56-59 | every fetched post left out is no newer than every post kept |
| `NewsFeed.FetchedPosts` | frontend/bigjohn/src/components/News.js:48-63 | on success the feed holds at most 5 fetched posts, newest first: exactly 5 when at least 5 were fetched, and all of them when at most 5 were; a failure keeps the old list |
| `NewsFeed.Feed.constructor` | frontend/bigjohn/src/components/News.js:27 | the feed starts empty |
| `NewsFeed.Feed.FetchPosts` | frontend/bigjohn/src/components/News.js:48-63 | the feed becomes `FetchedPosts` of the old list and the response |
| `NewsEditor.SaveRequest` | frontend/bigjohn/src/components/NewsEditor.js:137-167 | a PUT to `/api/news/{editingPostId}` exactly when `editingPostId` is truthy, otherwise a POST to `/api/news`; the body carries the title, the document, the image URL and the link |
| `NewsEditor.VipForm` | frontend/bigjohn/src/components/NewsEditor.js:401-412 | the form always starts with title and description, and has an image, video or audio part exactly when that file is selected, carrying that file; its length is 2 plus the number of selected files, so there is no other part |
| `NewsEditor.Editor.constructor` | frontend/bigjohn/src/components/NewsEditor.js:53-73 | every field starts at its initial value: empty strings and lists, no files, closed dialogs, no post being edited |
| `NewsEditor.Editor.RenderedPosts` | frontend/bigjohn/src/components/NewsEditor.js:526-527 | the render's second in-place sort leaves the stored top-5 list exactly as it is |
| `NewsEditor.Editor.RenderedVipPosts` | frontend/bigjohn/src/components/NewsEditor.js:716-717 | the VIP list is rendered newest first, none dropped |
| `NewsEditor.Editor.FetchPosts` | frontend/bigjohn/src/components/NewsEditor.js:84-99 | after a fetch the list holds at most 5 posts, newest first; a failure keeps it |
| `NewsEditor.Editor.FetchSpotifyEmbeds` | frontend/bigjohn/src/components/NewsEditor.js:101-113 | the embed list becomes the fetched data, or stays on failure |
| `NewsEditor.Editor.FetchVipPosts` | frontend/bigjohn/src/components/NewsEditor.js:115-127 | the VIP list becomes the fetched data, unsorted, or stays on failure |
| `NewsEditor.Editor.HandleEditorChange` | frontend/bigjohn/src/components/NewsEditor.js:129-131 | the document becomes the editor's new state and nothing else changes |
| `NewsEditor.Editor.HandleTitleChange` | frontend/bigjohn/src/components/NewsEditor.js:133-135 | the title becomes the typed value and nothing else changes |
| `NewsEditor.Editor.HandleSave` | frontend/bigjohn/src/components/NewsEditor.js:137-173 | once a token is obtained it sends `SaveRequest` of the current form; after success the title, link and document are cleared and `editingPostId` becomes null, `imageUrl` kept; after a failure nothing changes |
| `NewsEditor.Editor.HandleEdit` | frontend/bigjohn/src/components/NewsEditor.js:175-185 | title, link and `editingPostId` come from the post (its `_id`) and the document is parsed from its content |
| `NewsEditor.Editor.HandleDelete` | frontend/bigjohn/src/components/NewsEditor.js:187-205 | declining the confirmation sends nothing and changes nothing; otherwise a DELETE to `/api/news/{postId}` is sent once a token is obtained |
| `NewsEditor.Editor.HandleVipEdit` | frontend/bigjohn/src/components/NewsEditor.js:207-211 | title and description come from the VIP post and the inline-upload file is cleared |
| `NewsEditor.Editor.HandleVipDelete` | frontend/bigjohn/src/components/NewsEditor.js:213-231 | declining sends nothing; otherwise a DELETE to `/api/vip/{postId}` once a token is obtained |
| `NewsEditor.Editor.HandleKeyCommand` | frontend/bigjohn/src/components/NewsEditor.js:233-240 | a command that yields a new document is applied and reported "handled"; otherwise "not-handled" and no change |
| `NewsEditor.Editor.ToggleInlineStyle` | frontend/bigjohn/src/components/NewsEditor.js:242-244 | the style toggle is applied to the document and nothing else changes |
| `NewsEditor.Editor.ToggleBlockType` | frontend/bigjohn/src/components/NewsEditor.js:246-248 | the block-type toggle is applied to the document and nothing else changes |
| `NewsEditor.Editor.ResetEditor` | frontend/bigjohn/src/components/NewsEditor.js:250-255 | title and link become "", the document becomes empty and `editingPostId` null; nothing else, `imageUrl` included, changes |
| `NewsEditor.Editor.PromptForLink` | frontend/bigjohn/src/components/NewsEditor.js:257-259 | opens the link dialog |
| `NewsEditor.Editor.CloseLinkDialog` | frontend/bigjohn/src/components/NewsEditor.js:762 | closes the link dialog |
| `NewsEditor.Editor.HandleLinkChange` | frontend/bigjohn/src/components/NewsEditor.js:758 | the link dialog's input sets `link`, the field the post's link is saved from, and nothing else |
| `NewsEditor.Editor.ConfirmLink` | frontend/bigjohn/src/components/NewsEditor.js:261-281 | links the selection to the current `link`, closes the dialog and clears `link`, the same field the post's link is saved from |
| `NewsEditor.Editor.PromptForImage` | frontend/bigjohn/src/components/NewsEditor.js:283-285 | opens the image dialog |
| `NewsEditor.Editor.CloseImageDialog` | frontend/bigjohn/src/components/NewsEditor.js:785 | closes the image dialog |
| `NewsEditor.Editor.HandleImageUrlChange` | frontend/bigjohn/src/components/NewsEditor.js:781 | the image dialog's input sets `imageUrl`, the URL the next save sends, and nothing else |
| `NewsEditor.Editor.ConfirmImage` | frontend/bigjohn/src/components/NewsEditor.js:287-303 | inserts an image block for `imageUrl`, closes the dialog and clears `imageUrl`, the URL the next save would send |
| `NewsEditor.Editor.HandleImageChange` | frontend/bigjohn/src/components/NewsEditor.js:305-307 | the selected image becomes the picked file, or none |
| `NewsEditor.Editor.HandleVideoChange` | frontend/bigjohn/src/components/NewsEditor.js:309-311 | the selected video becomes the picked file, or none |
| `NewsEditor.Editor.HandleAudioChange` | frontend/bigjohn/src/components/NewsEditor.js:313-315 | the selected audio becomes the picked file, or none |
| `NewsEditor.Editor.PromptForUpload` | frontend/bigjohn/src/components/NewsEditor.js:317-319 | opens the upload dialog |
| `NewsEditor.Editor.CloseUploadDialog` | frontend/bigjohn/src/components/NewsEditor.js:803 | closes the upload dialog |
| `NewsEditor.Editor.HandleFileChange` | frontend/bigjohn/src/components/NewsEditor.js:321-323 | the file to upload becomes the picked file, or none |
| `NewsEditor.Editor.UploadImage` | frontend/bigjohn/src/components/NewsEditor.js:325-352 | with no file selected nothing happens; otherwise an upload starts, and a reported location becomes `imageUrl`, closes the dialog and clears the file; an error changes nothing |
| `NewsEditor.Editor.HandleSpotifyEmbedChange` | frontend/bigjohn/src/components/NewsEditor.js:354-356 | the embed input takes the typed value |
| `NewsEditor.Editor.SaveSpotifyEmbed` | frontend/bigjohn/src/components/NewsEditor.js:358-376 | POSTs the embed once a token is obtained and clears the input only after success |
| `NewsEditor.Editor.HandleSpotifyDelete` | frontend/bigjohn/src/components/NewsEditor.js:378-391 | sends a DELETE to `/api/spotify/{id}` once a token is obtained; there is no confirmation step and no state change |
| `NewsEditor.Editor.HandleDescriptionChange` | frontend/bigjohn/src/components/NewsEditor.js:393-395 | the description takes the typed value |
| `NewsEditor.Editor.HandleImageFormSubmit` | frontend/bigjohn/src/components/NewsEditor.js:398-433 | once a token is obtained it POSTs the `VipForm` of the current fields; after success the landing page's uploaded-image URL, the title, the description and all three file choices are cleared; after a failure nothing changes |
| `PasswordGate.Initial` | frontend/bigjohn/src/components/ProtectedRoute.js:5-9 | unlocked on mount if and only if the session key `isNewsEditorAuthenticated` holds "true"; the password field starts empty |
| `PasswordGate.Login` | frontend/bigjohn/src/components/ProtectedRoute.js:16-24 | the configured password unlocks the gate and writes "true" under the session key; any other password, or no configured password, changes neither the state nor the store |
| `PasswordGate.EnterIsLogin` | frontend/bigjohn/src/components/ProtectedRoute.js:26-30 | Enter behaves exactly like the login button, and any other key changes nothing |
| `PasswordGate.RunNeverRelocks` | frontend/bigjohn/src/components/ProtectedRoute.js:5-30 | once unlocked, the gate stays unlocked after any sequence of events |
| `PasswordGate.RunKeepsSynced` | frontend/bigjohn/src/components/ProtectedRoute.js:5-20 | from mount on, the state is unlocked exactly when the session flag reads "true" |
| `PasswordGate.RunFromSynced` | frontend/bigjohn/src/components/ProtectedRoute.js:16-30 | every event keeps the state and the session flag in agreement |
| `PasswordGate.UnlockNeedsExactPassword` | frontend/bigjohn/src/components/ProtectedRoute.js:16-18 | a locked gate opens only if a password is configured and exactly that password was in the field or was typed |
| `PasswordGate.SessionStorage.constructor` | frontend/bigjohn/src/components/ProtectedRoute.js:7 | the store starts with the given items |
| `PasswordGate.SessionStorage.SetItem` | frontend/bigjohn/src/components/ProtectedRoute.js:20 | `setItem` maps the key to the value and keeps every other item |
| `PasswordGate.Gate.constructor` | frontend/bigjohn/src/components/ProtectedRoute.js:5-9 | the component starts in `Initial` of the session store |
| `PasswordGate.Gate.View` | frontend/bigjohn/src/components/ProtectedRoute.js:32-51 | the children render exactly when unlocked, the password form exactly when locked |
| `PasswordGate.Gate.HandlePasswordChange` | frontend/bigjohn/src/components/ProtectedRoute.js:12-14 | the password field takes the typed value |
| `PasswordGate.Gate.HandleLogin` | frontend/bigjohn/src/components/ProtectedRoute.js:16-24 | state and session store change exactly as `Login` says |
| `PasswordGate.Gate.HandleKeyPress` | frontend/bigjohn/src/components/ProtectedRoute.js:26-30 | Enter runs the login, any other key changes nothing |

## Left out

- HTTP plumbing is not modelled: Express routing, CORS, body parsing and `app.listen` on the server, and axios/fetch on the client. Headers and bearer tokens are left out as well. Each request is an outcome parameter, and the model says which request would be sent.
- S3 uploads are not modelled: the server's multer-S3 storage, the `/api/upload` route, and the client's `AWS.S3().upload`. They are foreign SDK calls. `NewsEditor.Editor.UploadImage` keeps only the guard and the callback's effect on state.
- Auth0 is not modelled (`useAuth0`, `getAccessTokenSilently`, `index.js`). Token issuance is external; its failure is the `TokenFailed` outcome.
- The rich-text library (draft-js and its HTML export) is not modelled. The document is an opaque `Doc`. Serialization and rendering to markup are not modelled, and neither is the conversion of a document to its stored JSON text and back.
- Date parsing and locale formatting are not modelled. Upload dates are integers, so the NaN comparisons that invalid dates would cause in the sort comparators are not captured.
- `IntParsing.ParseInt` is modelled on unbounded integers. JavaScript's loss of precision above 2^53 is not captured.
- Missing fields in a request body are not modelled. JavaScript would store `undefined` for them; the model's fields are always strings.
- `NewsEditor.Editor.HandleEdit` assumes the post's content parses. A `JSON.parse` failure would throw after `setTitle` had run; this partial update is not modelled.
- `NewsEditor.Editor` takes a landing page object as its `setUploadedImageUrl` prop. The prop's default no-op is not modelled, because the landing page always passes the prop.
- `NewsEditor.Editor.FetchSpotifyEmbeds` and `NewsEditor.Editor.FetchVipPosts` are modelled for list bodies only. The component stores whatever body arrives. A body that is not an array is skipped by the embed list's `Array.isArray` guard (`NewsEditor.js:580`), but it would make the VIP list's render throw at its `sort` (`NewsEditor.js:716`). Neither case is modelled. `News.js`, `VipArea.js` and the editor's news fetch sort the body at once, so for them a wrong shape lands in the catch block like a network failure.
- `alert` pop-ups and `console` logging are not modelled: the wrong-password alert (`ProtectedRoute.js:22`), the editor's success alerts, and the error logs in every catch block. They change no state.
- `NewsEditor.Editor.HandleSave`, `HandleDelete`, `HandleVipDelete`, `UploadImage`, `SaveSpotifyEmbed`, `HandleSpotifyDelete` and `HandleImageFormSubmit` each run as one step. In the component, each reads its payload, then waits for the token request and the write request, or for the S3 callback (`NewsEditor.js:148-169`, `342-351`, `360-372`, `380-387`, `415-429`), and only then runs its setters. What happens while it waits is not modelled:
  - typing or picking a file during the wait, which the setters that follow then clear;
  - a second click before the first request finishes, which in the component sends the same payload twice.
- Component mounting, effect scheduling and React's batching of state updates are not modelled. Each handler's setters are applied together, in program order.
- Spotify embed handling is only partly modelled:
  - `News.js` fetches the Spotify embeds and renders them; neither is modelled.
  - The landing page renders `spotifyEmbed.embedCode`, while the stored embeds carry `embedUrl`. Only the choice of which embed to show is modelled.
- The backend iterations with a document store are not part of this model: the Spotify, VIP and daily-active-user collections, the user listing, and the `/authorized` probe. The model's server is the in-memory table of `backend/server.js`.
- `VipProtectedRoute.js` is not modelled. It is a one-line ternary on an external flag, and it redirects to its own route `/vip`.
- The presentation components (`Banner.jsx`, `Card.js`, `StyledButton.js`, `AuthButtons.js`), all JSX layout, and the text checks in `NewsEditorTests.js` are not modelled.
