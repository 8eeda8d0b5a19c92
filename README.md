# SpotifyOverlay session and playback model

SpotifyOverlay is a VR dashboard overlay that searches the Spotify catalog and
drives the desktop Spotify client through its local web helper. This project
models the session and playback state machine of its `SpotifyOverlay` class:
the two tokens (`key_OAuth`, `key_CSRF`), `isPlaying` and the play button's
icon, the now-playing labels and album art, the search result buttons, and
the requests the slots hand to the network manager, and proves what each slot
does to them.

Files:

- `track_uri.dfy` (module `TrackUri`): `QString::replace("spotify:track:", "")`
  as a pure function, a single left-to-right pass that deletes non-overlapping
  occurrences, with its properties.
- `search_url.dfy` (module `SearchUrl`): the query string of the search
  request, built by pasting the search text between `q=` and
  `&type=track&limit=5`, as QUrl cuts it at the first `#`, and the first
  `&`-separated field the server reads the search term from.
- `session.dfy` (module `Session`): the requests, the already-parsed replies
  and the state as datatypes, and one function per slot giving the state it
  leaves behind; `Step` and `Run` apply a sequence of events.
- `session_properties.dfy` (module `SessionProperties`): each slot's effect,
  and what holds over any sequence of events.
- `spotify_overlay.dfy` (module `Overlay`): the class `SpotifyOverlay` with
  the fields updated in place. Each slot is a method whose postcondition says
  that the new fields are the ones the matching `Session` function gives for
  the old ones, and that the icon still agrees with `isPlaying`.

Modelling decisions:

- A request is an element of an append-only `outbox`. Status, play and pause
  requests carry the tokens held when they were built. Percent-encoding is
  not modelled: tokens and URIs are stored as they are.
- The search text is not encoded in the source either: it is pasted into
  the URL. A search request records the URL's query as QUrl splits it off,
  everything up to the first `#`. A `#` in the text starts the fragment, so
  the rest of the text and the type and limit fields are never sent. The
  server splits the query into fields at each `&`, so text such as
  `rock&roll` is searched for as `rock`.
- A reply is a record: a flag that says whether the body was empty
  (`result->size() > 0` fails), plus the fields the slot reads. A field the
  JSON does not carry is `""` or `false`, the defaults of `toString()` and
  `toBool()`.
- The album art is an opaque `Image` value, the result of
  `QImage::loadFromData`. A null image is a possible value.
- `iconIsPause` records which of the two icons the play button shows.
- The search result layout is the sequence `results`. Each entry holds the
  button's three labels and its `"uri"` property.
- `search_selected` takes the index of the button that sent the signal.
  As a pure function on any index, an index with no button changes nothing.
  The class method requires the button to exist.
- The end of `openKeyboard` is the method `KeyboardDone(text)`: the text goes
  into the search field and `search` runs.

What the code does not do, and the model therefore does not either:

- No command checks that a token is held. `play`, `pause`, `unpause` and
  `playToggle` issue their requests with whatever tokens are held, possibly
  empty (`ToggleWhilePausedScenario`).
- A CSRF request is issued after any OAuth reply with a body, even when the
  reply has no `"t"` and the OAuth token stays empty
  (`CsrfRequestedWithoutOAuthToken`).
- Replies are not matched to the request that caused them. A late metadata
  reply for an older track overwrites the labels: after any events the labels
  show the last metadata reply with a body (`RunShowsLastTrackInfo`), and the
  art the last image downloaded (`RunShowsLastArt`).
- A status reply always asks for metadata again, even for the same track. The
  current track URI is not stored.
- There is no result window or scroll offset. For text without `#` the
  request carries `limit=5`, and every returned track gets a button.
  A search for text with `#` sends no limit at all (`FragmentSearchScenario`).

## Model

| member | source | states |
|---|---|---|
| TrackUri.RemoveAll | spotifyoverlay.cpp:206 | removing `"spotify:track:"` never lengthens the URI; it returns the URI unchanged or shorter by at least one whole prefix |
| TrackUri.StripTrackPrefix | spotifyoverlay.cpp:206 | `uri.replace("spotify:track:", "")`, here and at spotifyoverlay.cpp:429, carried by every metadata request; `StripTrackUri` proves it yields the bare id of a track URI, `StripWithoutPrefix` that it passes other strings through, `StripIsSinglePass` that it is not idempotent |
| TrackUri.RemoveAllFixedIff | spotifyoverlay.cpp:429 | the removal leaves a URI unchanged exactly when the prefix does not occur in it (both directions) |
| TrackUri.StripTrackUri | spotifyoverlay.cpp:206 | `"spotify:track:" + id` becomes `id` when `id` has no copy of the prefix |
| TrackUri.StripWithoutPrefix | spotifyoverlay.cpp:429 | a URI without the prefix, the empty one included, is passed through unchanged |
| TrackUri.RemoveAllKeepsPrefix | spotifyoverlay.cpp:206 | characters before the first occurrence are copied through unchanged |
| TrackUri.RemovalCanFormPattern | spotifyoverlay.cpp:206 | one pass only: deleting an occurrence can join its neighbours into a new copy of the pattern, which stays |
| TrackUri.RemoveAllLeading | spotifyoverlay.cpp:206 | a leading copy of the prefix is deleted and the pass goes on with the rest |
| TrackUri.StripIsSinglePass | spotifyoverlay.cpp:429 | `"spotify:tspotify:track:rack:"` strips to `"spotify:track:"`, so stripping is not idempotent |
| Session.Entries | spotifyoverlay.cpp:334-376 | one result entry per returned track, in input order, each with the track's name, first artist, album name and uri |
| SessionProperties.OAuthResultEffect | spotifyoverlay.cpp:148-165 | an empty reply changes nothing; otherwise `key_OAuth` becomes `"t"` (`""` if absent), exactly one CSRF request is appended, nothing else changes |
| SessionProperties.CsrfResultEffect | spotifyoverlay.cpp:167-184 | an empty reply changes nothing; otherwise `key_CSRF` becomes `"token"` and exactly one status request with both tokens is appended, with no check of `key_OAuth` |
| SessionProperties.PlayEffect | spotifyoverlay.cpp:186-210 | play sets `isPlaying` and the pause icon and appends a play request with uri and context both the original uri, then a metadata request for the stripped uri; no token check |
| SessionProperties.PlayTrackUri | spotifyoverlay.cpp:197-206 | for `"spotify:track:" + id`, the play request carries the full uri and the metadata request the bare id |
| SessionProperties.PauseEffect | spotifyoverlay.cpp:224-237 | pause clears `isPlaying`, shows the play icon and appends one pause request with `pause=true` |
| SessionProperties.UnpauseEffect | spotifyoverlay.cpp:239-252 | unpause sets `isPlaying`, shows the pause icon and appends one pause request with `pause=false` |
| SessionProperties.PlayToggleEffect | spotifyoverlay.cpp:212-222 | toggle negates `isPlaying` and the icon, appends exactly one pause request whose flag is `"true"` exactly when it was playing, and changes no token, label or result |
| SessionProperties.PlayToggleTwice | spotifyoverlay.cpp:212-252 | two toggles restore the state except for two pause requests with opposite flags |
| SessionProperties.SkipEffect | spotifyoverlay.cpp:271-291 | skip_prev (:271) and skip_next (:291) each append one status request with the held tokens and change nothing else |
| SessionProperties.SearchEffect | spotifyoverlay.cpp:294-307 | search appends one search request and changes nothing else; its query is `q=<text>&type=track&limit=5` exactly when the text holds no `#`, is `q=` and the text before the `#` otherwise, and its leading field holds the text up to the first `&` or `#` |
| SessionProperties.KeyboardDoneEffect | spotifyoverlay.cpp:404-407 | entered text replaces the search field and the result is what search gives from there: one search request, whose query is the built string exactly when the text holds no `#`, the text before the `#` otherwise, and whose leading field holds the text up to the first `&` or `#` |
| SessionProperties.FragmentSearchScenario | spotifyoverlay.cpp:303 | entering `AC#DC` sends the query `q=AC` only: no type and no limit |
| SearchUrl.SearchQuery | spotifyoverlay.cpp:303 | the query of the URL search builds, as QUrl splits it off at the first `#`; carried by every search request; `QueryAsBuilt`, `QueryCutAtFragment` and `SearchedText` give its value for text with and without `#` and `&` |
| SearchUrl.LeadingField | spotifyoverlay.cpp:303 | the first `&`-separated field of a query, the one the server reads `q` from; `SearchedText` proves it holds the text up to its first `&` or `#` |
| SearchUrl.Before | spotifyoverlay.cpp:303 | the longest prefix free of the stop characters: every character kept is not a stop character, and the string ends or a stop character follows |
| SearchUrl.Decimal | spotifyoverlay.cpp:303 | `QString::number` of a non-negative limit: at least one character, all decimal digits, denoting the number |
| SearchUrl.QueryAsBuilt | spotifyoverlay.cpp:303 | the query is `q=` + text + `&type=track&limit=` + digits exactly when the text holds no `#` (both directions) |
| SearchUrl.QueryCutAtFragment | spotifyoverlay.cpp:303 | for text holding `#`, the query is `q=` and the text before its first `#` |
| SearchUrl.SearchedText | spotifyoverlay.cpp:303 | the leading field of the query is `q=` and the text up to its first `&` or `#` |
| SearchUrl.BeforeAppend | spotifyoverlay.cpp:303 | cutting a concatenation: the second part is reached only when the first holds no stop character |
| SearchUrl.BeforeTwice | spotifyoverlay.cpp:303 | cutting at `#` and then at `&` is cutting at the first of either |
| SessionProperties.SearchResultReplaces | spotifyoverlay.cpp:309-378 | the results afterwards do not depend on the results before; empty reply gives no results, otherwise one entry per track in order; nothing else changes |
| SessionProperties.SelectAfterSearch | spotifyoverlay.cpp:370-384 | selecting the i-th button after a search plays the i-th returned track's uri |
| SessionProperties.UpdateSpotifyStatusEffect | spotifyoverlay.cpp:412-434 | an empty reply changes nothing; otherwise `isPlaying` and the icon follow `"playing"` and one metadata request for the stripped track uri is appended |
| SessionProperties.StatusWithoutTrack | spotifyoverlay.cpp:425-432 | a status reply without a track uri still appends a metadata request, for the empty id |
| SessionProperties.UpdateTrackInfoEffect | spotifyoverlay.cpp:436-459 | an empty reply changes nothing; otherwise title, album and artist are set and one request for the album image url is appended |
| SessionProperties.AlbumArtDownloadedEffect | spotifyoverlay.cpp:461-469 | the downloaded image replaces the art unconditionally, a null image included |
| SessionProperties.StepKeepsIcon | spotifyoverlay.cpp:134-146 | every slot keeps the icon showing pause exactly while `isPlaying` |
| SessionProperties.RunKeepsIcon | spotifyoverlay.cpp:134-146 | the icon agrees with `isPlaying` after any sequence of slots |
| SessionProperties.RunExtendsOutbox | spotifyoverlay.cpp:92-132 | requests once issued stay issued, in order: the outbox only grows at its end |
| SessionProperties.StepIssues | spotifyoverlay.cpp:148-469 | every slot appends exactly the requests listed for it in `Issued`, at most two |
| SessionProperties.IssuedCounts | spotifyoverlay.cpp:163 | of the requests a slot issues, one is a CSRF request exactly for an OAuth reply with a body, one is a status request exactly for a CSRF reply with a body or a skip, none is an OAuth request |
| SessionProperties.StepCounts | spotifyoverlay.cpp:182 | one slot adds to the CSRF, status and OAuth request counts exactly what `IssuedCounts` lists |
| SessionProperties.CountKindAppend | spotifyoverlay.cpp:92-132 | helper for the count lemmas about the requests these lines issue: request counts add up over concatenated outboxes |
| SessionProperties.CsrfRequestsFollowOAuthReplies | spotifyoverlay.cpp:106-118 | over any events, the CSRF requests issued are exactly one per OAuth reply with a body |
| SessionProperties.StatusRequestsFollowTriggers | spotifyoverlay.cpp:120-132 | over any events, the status requests issued are exactly one per CSRF reply with a body and per skip |
| SessionProperties.OAuthRequestsUnchanged | spotifyoverlay.cpp:92-104 | no slot issues an OAuth request |
| SessionProperties.SingleOAuthRequest | spotifyoverlay.cpp:13-14 | after construction and any events, exactly one OAuth request has been issued |
| SessionProperties.StepTokens | spotifyoverlay.cpp:159 | only an OAuth reply with a body changes `key_OAuth`, only a CSRF reply with a body changes `key_CSRF` |
| SessionProperties.RunKeepsTokens | spotifyoverlay.cpp:159-178 | a run in which no OAuth or CSRF reply has a body, empty token replies allowed, leaves both tokens unchanged |
| SessionProperties.HandshakeScenario | spotifyoverlay.cpp:148-184 | `{"t":"ABC"}` then `{"token":"XYZ"}` gives both tokens and the outbox OAuth, CSRF, status("ABC","XYZ") |
| SessionProperties.CsrfRequestedWithoutOAuthToken | spotifyoverlay.cpp:152-163 | an OAuth reply without `"t"` leaves `key_OAuth` empty and still issues a CSRF request |
| SessionProperties.ToggleWhilePausedScenario | spotifyoverlay.cpp:212-252 | from the start state, toggle issues exactly one request, `pause=false` with empty tokens, and is playing at once |
| SessionProperties.StepLabels | spotifyoverlay.cpp:436-449 | a metadata reply with a body sets all three labels from it; no other event touches them |
| SessionProperties.StepArt | spotifyoverlay.cpp:461-469 | a downloaded image replaces the art; no other event touches it |
| SessionProperties.RunSnoc | spotifyoverlay.cpp:148-469 | handling one more event after a run is one more slot call |
| SessionProperties.RunShowsLastTrackInfo | spotifyoverlay.cpp:436-449 | after any events the labels show the last metadata reply with a body, whatever track it was asked for, or are unchanged when there was none |
| SessionProperties.RunShowsLastArt | spotifyoverlay.cpp:461-469 | after any events the art is the last image downloaded, a null one included, or is unchanged when there was none |
| Overlay.SpotifyOverlay.constructor | spotifyoverlay.cpp:6-35 | the fields start as in `Session.Init`: no tokens, not playing, play icon, no results, and one OAuth request issued |
| Overlay.SpotifyOverlay.GetTokenOAuth | spotifyoverlay.cpp:92-104 | appends one OAuth request, nothing else changes |
| Overlay.SpotifyOverlay.GetTokenCsrf | spotifyoverlay.cpp:106-118 | appends one CSRF request, nothing else changes |
| Overlay.SpotifyOverlay.GetSpotifyStatus | spotifyoverlay.cpp:120-132 | appends one status request with the held tokens |
| Overlay.SpotifyOverlay.SetIsPlaying | spotifyoverlay.cpp:134-146 | sets `isPlaying` and the icon together, establishing the icon invariant |
| Overlay.SpotifyOverlay.OAuthResult | spotifyoverlay.cpp:148-165 | the fields afterwards are `Session.OAuthResult` of the fields before; icon invariant kept |
| Overlay.SpotifyOverlay.CsrfResult | spotifyoverlay.cpp:167-184 | the fields afterwards are `Session.CsrfResult` of the fields before; icon invariant kept |
| Overlay.SpotifyOverlay.Play | spotifyoverlay.cpp:186-210 | the fields afterwards are `Session.Play` of the fields before; icon invariant kept |
| Overlay.SpotifyOverlay.PlayToggle | spotifyoverlay.cpp:212-222 | the fields afterwards are `Session.PlayToggle` of the fields before; icon invariant kept |
| Overlay.SpotifyOverlay.Pause | spotifyoverlay.cpp:224-237 | the fields afterwards are `Session.Pause` of the fields before; icon invariant kept |
| Overlay.SpotifyOverlay.Unpause | spotifyoverlay.cpp:239-252 | the fields afterwards are `Session.Unpause` of the fields before; icon invariant kept |
| Overlay.SpotifyOverlay.SkipPrev | spotifyoverlay.cpp:254-272 | the fields afterwards are `Session.Skip` of the fields before |
| Overlay.SpotifyOverlay.SkipNext | spotifyoverlay.cpp:274-292 | the fields afterwards are `Session.Skip` of the fields before |
| Overlay.SpotifyOverlay.Search | spotifyoverlay.cpp:294-307 | the fields afterwards are `Session.Search` of the fields before |
| Overlay.SpotifyOverlay.KeyboardDone | spotifyoverlay.cpp:404-407 | the fields afterwards are `Session.KeyboardDone` of the fields before |
| Overlay.SpotifyOverlay.SearchResult | spotifyoverlay.cpp:309-378 | after emptying the layout in a loop and refilling it in a second loop, the fields are `Session.SearchResult` of the fields before |
| Overlay.SpotifyOverlay.SearchSelected | spotifyoverlay.cpp:380-384 | for an existing button, the fields afterwards are `Session.SearchSelected` of the fields before |
| Overlay.SpotifyOverlay.UpdateSpotifyStatus | spotifyoverlay.cpp:412-434 | the fields afterwards are `Session.UpdateSpotifyStatus` of the fields before; icon invariant kept |
| Overlay.SpotifyOverlay.UpdateTrackInfo | spotifyoverlay.cpp:436-459 | the fields afterwards are `Session.UpdateTrackInfo` of the fields before |
| Overlay.SpotifyOverlay.AlbumArtDownloaded | spotifyoverlay.cpp:461-469 | the fields afterwards are `Session.AlbumArtDownloaded` of the fields before |

## Left out

- `initManifest` (spotifyoverlay.cpp:43-81): registers the application with OpenVR and writes a manifest file; file I/O and foreign calls.
- `initNetwork` and the TLS configuration (spotifyoverlay.cpp:83-90), and the execution of each `netMgr->get`: requests are only recorded in the outbox.
- The URLs, the `Origin` header and the fixed local host name and port of each request: a request records its endpoint and its parameters only.
- `openKeyboard`'s polling loop over OpenVR events and its fixed-size text buffer (spotifyoverlay.cpp:386-404): only its end, setting the search field and calling `search`, is modelled.
- The `SendInput` media-key presses in `skip_prev` and `skip_next` (spotifyoverlay.cpp:256-269, 276-289): a Win32 call; only the status request that follows is modelled.
- Widget construction, fonts, style sheets and layout sizing (spotifyoverlay.cpp:6-35, 341-375): a result button is its labels and its uri.
- Overlay.SpotifyOverlay.constructor: the initial icon, label texts and search field come from the Qt Designer form, which is not part of this model. The constructor takes them to be the play icon and empty strings; the source never sets the icon there (spotifyoverlay.cpp:22-23 only loads the two images), so its `Valid()` rests on that assumption.
- JSON parsing (`QJsonDocument`), percent-encoding (`QUrl::toPercentEncoding`) and image decoding (`QImage::loadFromData`): library calls; replies arrive parsed, strings are stored unencoded, and art is an opaque value. A search query keeps characters QUrl would percent-escape, such as a space, as typed, and the server's decoding of `+` and `%` escapes is not modelled.
- The server's reading of the search query beyond its leading field: `SearchUrl.SearchedText` says which text `q` carries, not how a field such as `roll` from `rock&roll` is treated, nor which `limit` the server honours when the text carries its own, as `x&limit=50` does (the query then holds `limit=50` and `limit=5`).
- Indexing `[0]` of an empty JSON array (first artist, first album image): taken to read as a missing value, so the field is `""`.
- Dispatch through `sender()`: each slot receives its own reply directly.
- The order in which network replies complete: they arrive one at a time as separate calls, in any order a caller chooses.
- The `qDebug()` logging (spotifyoverlay.cpp:122, 161, 180, 188, 226, 241, 298): diagnostic output only, which changes no state.
- The destructor and main.cpp: memory release and application wiring, no session logic.
