/**
 * The session and playback state of the overlay as a value, and one function
 * per slot of the SpotifyOverlay class giving the state that slot leaves
 * behind. Network replies arrive already parsed: a flag saying whether the
 * body was empty, and the fields the slot reads, each "" or false when the
 * JSON did not carry it (the defaults of Qt's toString()/toBool()).
 * Issuing a network request appends it to the outbox; the transport is not
 * modelled.
 */
module Session {
  import opened TrackUri
  import opened SearchUrl

  /** Number of tracks a search asks for (maxResults). */
  const MaxResults: nat := 5

  /** Query-string values of the pause endpoint. */
  const PauseOn: string := "true"
  const PauseOff: string := "false"

  /** The album art as QImage::loadFromData leaves it: null when the bytes did not decode. */
  datatype Image = NullImage | Decoded(pixels: seq<bv8>)

  /**
   * A request the overlay hands to its network manager. Tokens and track
   * URIs are kept as plain strings; their percent-encoding is applied when
   * the URL is built and is not part of this model. A search request holds
   * the query of its URL as QUrl splits it off, with any character QUrl
   * would percent-escape (a space, say) kept as typed.
   */
  datatype Request =
    | OAuthReq                                                  // open.spotify.com/token
    | CsrfReq                                                   // local /simplecsrf/token.json
    | StatusReq(oauth: string, csrf: string)                    // local /remote/status.json
    | PlayReq(oauth: string, csrf: string, uri: string, context: string)  // local /remote/play.json
    | PauseReq(oauth: string, csrf: string, pause: string)      // local /remote/pause.json
    | MetaReq(trackId: string)                                  // api.spotify.com/v1/tracks/<id>
    | ArtReq(url: string)                                       // the album image URL
    | SearchReq(query: string)                                  // api.spotify.com/v1/search?<query>

  /** The reply to the OAuth token request: field "t". */
  datatype OAuthReply = OAuthReply(bodyEmpty: bool, t: string)

  /** The reply to the CSRF token request: field "token". */
  datatype CsrfReply = CsrfReply(bodyEmpty: bool, token: string)

  /** The reply to a status request: "playing" and "track.track_resource.uri". */
  datatype StatusReply = StatusReply(bodyEmpty: bool, playing: bool, trackUri: string)

  /** The reply to a metadata request: "name", "album.name", "artists[0].name", "album.images[0].url". */
  datatype TrackReply = TrackReply(bodyEmpty: bool, name: string, albumName: string, artistName: string, artUrl: string)

  /** One element of "tracks.items" in a search reply. */
  datatype TrackItem = TrackItem(name: string, artistName: string, albumName: string, uri: string)

  /** The reply to a search request. */
  datatype SearchReply = SearchReply(bodyEmpty: bool, items: seq<TrackItem>)

  /** One button of the result list: its three labels and its "uri" property. */
  datatype ResultEntry = ResultEntry(title: string, artist: string, album: string, uri: string)

  /** Everything the slots read or write. */
  datatype State = State(
    keyOAuth: string,
    keyCsrf: string,
    isPlaying: bool,
    iconIsPause: bool,
    trackTitle: string,
    trackArtist: string,
    trackAlbum: string,
    albumArt: Image,
    searchField: string,
    results: seq<ResultEntry>,
    outbox: seq<Request>)

  /** The play button shows the pause icon exactly while playing. */
  predicate IconAgrees(s: State) {
    s.iconIsPause == s.isPlaying
  }

  /** The state right after construction, which has issued the OAuth request. */
  function Init(): State {
    State("", "", false, false, "", "", "", NullImage, "", [], [OAuthReq])
  }

  /** setIsPlaying: the flag and the icon change together. */
  function SetIsPlaying(s: State, playing: bool): State {
    s.(isPlaying := playing, iconIsPause := playing)
  }

  /** getTokenCSRF. */
  function GetTokenCsrf(s: State): State {
    s.(outbox := s.outbox + [CsrfReq])
  }

  /** getSpotifyStatus, authenticated with whatever tokens are held. */
  function GetSpotifyStatus(s: State): State {
    s.(outbox := s.outbox + [StatusReq(s.keyOAuth, s.keyCsrf)])
  }

  /** The metadata request play and updateSpotifyStatus issue for a track URI. */
  function RequestTrackInfo(s: State, uri: string): State {
    s.(outbox := s.outbox + [MetaReq(StripTrackPrefix(uri))])
  }

  /** oath_result. */
  function OAuthResult(s: State, reply: OAuthReply): State {
    if reply.bodyEmpty then s
    else GetTokenCsrf(s.(keyOAuth := reply.t))
  }

  /** csrf_result. */
  function CsrfResult(s: State, reply: CsrfReply): State {
    if reply.bodyEmpty then s
    else GetSpotifyStatus(s.(keyCsrf := reply.token))
  }

  /** play: the play request carries the URI as given, the metadata request its stripped form. */
  function Play(s: State, uri: string): State {
    var playing := SetIsPlaying(s, true);
    var requested := playing.(outbox := playing.outbox + [PlayReq(playing.keyOAuth, playing.keyCsrf, uri, uri)]);
    RequestTrackInfo(requested, uri)
  }

  /** pause. */
  function Pause(s: State): State {
    var paused := SetIsPlaying(s, false);
    paused.(outbox := paused.outbox + [PauseReq(paused.keyOAuth, paused.keyCsrf, PauseOn)])
  }

  /** unpause. */
  function Unpause(s: State): State {
    var resumed := SetIsPlaying(s, true);
    resumed.(outbox := resumed.outbox + [PauseReq(resumed.keyOAuth, resumed.keyCsrf, PauseOff)])
  }

  /** playToggle. */
  function PlayToggle(s: State): State {
    if s.isPlaying then Pause(s) else Unpause(s)
  }

  /** skip_prev and skip_next after the media key has been sent. */
  function Skip(s: State): State {
    GetSpotifyStatus(s)
  }

  /** search: the search field's text goes into the query unescaped, followed by the type and the limit. */
  function Search(s: State): State {
    s.(outbox := s.outbox + [SearchReq(SearchQuery(s.searchField, MaxResults))])
  }

  /** The end of openKeyboard: the entered text goes into the search field and a search starts. */
  function KeyboardDone(s: State, text: string): State {
    Search(s.(searchField := text))
  }

  /** The result button built for one returned track. */
  function EntryOf(item: TrackItem): ResultEntry {
    ResultEntry(item.name, item.artistName, item.albumName, item.uri)
  }

  /** The result buttons built for the returned tracks, one each, in order. */
  function Entries(items: seq<TrackItem>): (r: seq<ResultEntry>)
    ensures |r| == |items|
    ensures forall i :: 0 <= i < |items| ==> r[i] == EntryOf(items[i])
  {
    if items == [] then [] else Entries(items[..|items| - 1]) + [EntryOf(items[|items| - 1])]
  }

  /** search_result: the old buttons go whether or not the reply has a body. */
  function SearchResult(s: State, reply: SearchReply): State {
    s.(results := if reply.bodyEmpty then [] else Entries(reply.items))
  }

  /**
   * search_selected on the result button at `index`. Such a button exists
   * only while `index < |s.results|`; for any other index nothing happens.
   */
  function SearchSelected(s: State, index: nat): State {
    if index < |s.results| then Play(s, s.results[index].uri) else s
  }

  /** updateSpotifyStatus: metadata is fetched again even for an unchanged track. */
  function UpdateSpotifyStatus(s: State, reply: StatusReply): State {
    if reply.bodyEmpty then s
    else RequestTrackInfo(SetIsPlaying(s, reply.playing), reply.trackUri)
  }

  /** updateTrackInfo. */
  function UpdateTrackInfo(s: State, reply: TrackReply): State {
    if reply.bodyEmpty then s
    else s.(trackTitle := reply.name, trackAlbum := reply.albumName, trackArtist := reply.artistName,
            outbox := s.outbox + [ArtReq(reply.artUrl)])
  }

  /** albumArtDownloaded: whatever decoded, even a null image, replaces the art. */
  function AlbumArtDownloaded(s: State, image: Image): State {
    s.(albumArt := image)
  }

  /** Everything that can reach the overlay: a reply, a button, or entered text. */
  datatype Event =
    | OAuthReplied(oauth: OAuthReply)
    | CsrfReplied(csrf: CsrfReply)
    | PlayRequested(uri: string)
    | TogglePressed
    | PauseRequested
    | UnpauseRequested
    | PrevPressed
    | NextPressed
    | SearchRequested
    | TextEntered(text: string)
    | SearchReplied(search: SearchReply)
    | ResultSelected(index: nat)
    | StatusReplied(status: StatusReply)
    | TrackReplied(track: TrackReply)
    | ArtDownloaded(image: Image)

  /** The slot each event runs. */
  function Step(s: State, e: Event): State {
    match e
    case OAuthReplied(r) => OAuthResult(s, r)
    case CsrfReplied(r) => CsrfResult(s, r)
    case PlayRequested(uri) => Play(s, uri)
    case TogglePressed => PlayToggle(s)
    case PauseRequested => Pause(s)
    case UnpauseRequested => Unpause(s)
    case PrevPressed => Skip(s)
    case NextPressed => Skip(s)
    case SearchRequested => Search(s)
    case TextEntered(text) => KeyboardDone(s, text)
    case SearchReplied(r) => SearchResult(s, r)
    case ResultSelected(i) => SearchSelected(s, i)
    case StatusReplied(r) => UpdateSpotifyStatus(s, r)
    case TrackReplied(r) => UpdateTrackInfo(s, r)
    case ArtDownloaded(image) => AlbumArtDownloaded(s, image)
  }

  /** The events handled one at a time, in order. */
  function Run(s: State, events: seq<Event>): State
    decreases |events|
  {
    if events == [] then s else Run(Step(s, events[0]), events[1..])
  }
}
