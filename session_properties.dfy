/**
 * What the overlay's slots promise, stated about the value model in module
 * Session: the effect of each slot on its own, and what holds over any
 * sequence of events (the icon invariant, the outbox only growing, and which
 * events issue which requests).
 */
module SessionProperties {
  import opened TrackUri
  import opened SearchUrl
  import opened Session

  // ---------------------------------------------------------------------
  // Authentication replies
  // ---------------------------------------------------------------------

  /**
   * An OAuth reply with a body stores its "t" value and issues exactly one
   * CSRF request; nothing checks that the value is non-empty. An empty reply
   * changes nothing.
   */
  lemma OAuthResultEffect(s: State, reply: OAuthReply)
    ensures reply.bodyEmpty ==> OAuthResult(s, reply) == s
    ensures !reply.bodyEmpty ==>
      OAuthResult(s, reply) == s.(keyOAuth := reply.t, outbox := s.outbox + [CsrfReq])
  {
  }

  /**
   * A CSRF reply with a body stores its "token" value and issues one status
   * request carrying the OAuth token held and the new CSRF token, whether or
   * not an OAuth token is held. An empty reply changes nothing.
   */
  lemma CsrfResultEffect(s: State, reply: CsrfReply)
    ensures reply.bodyEmpty ==> CsrfResult(s, reply) == s
    ensures !reply.bodyEmpty ==>
      CsrfResult(s, reply) == s.(keyCsrf := reply.token,
                                 outbox := s.outbox + [StatusReq(s.keyOAuth, reply.token)])
  {
  }

  // ---------------------------------------------------------------------
  // Playback commands
  // ---------------------------------------------------------------------

  /**
   * play sets the playing state and issues, in this order, a play request
   * whose uri and context are both the URI as given, and a metadata request
   * for the URI with "spotify:track:" removed. No token is checked.
   */
  lemma PlayEffect(s: State, uri: string)
    ensures Play(s, uri) == s.(isPlaying := true, iconIsPause := true,
      outbox := s.outbox + [PlayReq(s.keyOAuth, s.keyCsrf, uri, uri), MetaReq(StripTrackPrefix(uri))])
  {
  }

  /**
   * For a track URI "spotify:track:<id>", the play request gets the full URI
   * and the metadata request the bare id.
   */
  lemma PlayTrackUri(s: State, id: string)
    requires !Occurs(id, TrackPrefix)
    ensures var t := Play(s, TrackPrefix + id);
      t.outbox == s.outbox + [PlayReq(s.keyOAuth, s.keyCsrf, TrackPrefix + id, TrackPrefix + id), MetaReq(id)]
  {
    StripTrackUri(id);
  }

  /** pause stops playing and issues one pause request with pause=true. */
  lemma PauseEffect(s: State)
    ensures Pause(s) == s.(isPlaying := false, iconIsPause := false,
      outbox := s.outbox + [PauseReq(s.keyOAuth, s.keyCsrf, "true")])
  {
  }

  /** unpause starts playing and issues one pause request with pause=false. */
  lemma UnpauseEffect(s: State)
    ensures Unpause(s) == s.(isPlaying := true, iconIsPause := true,
      outbox := s.outbox + [PauseReq(s.keyOAuth, s.keyCsrf, "false")])
  {
  }

  /**
   * playToggle negates the playing state, moves the icon with it, and issues
   * exactly one pause-endpoint request whose flag is "true" exactly when it
   * was playing before. Tokens, labels and results are untouched.
   */
  lemma PlayToggleEffect(s: State)
    ensures var t := PlayToggle(s);
      && t.isPlaying == !s.isPlaying
      && t.iconIsPause == !s.isPlaying
      && t.outbox == s.outbox + [PauseReq(s.keyOAuth, s.keyCsrf, if s.isPlaying then "true" else "false")]
      && t == s.(isPlaying := t.isPlaying, iconIsPause := t.iconIsPause, outbox := t.outbox)
  {
  }

  /**
   * Toggling twice gives back the state it started from, except that two
   * pause-endpoint requests with opposite flags are now in the outbox.
   */
  lemma PlayToggleTwice(s: State)
    requires IconAgrees(s)
    ensures var t := PlayToggle(PlayToggle(s));
      var first := if s.isPlaying then "true" else "false";
      var second := if s.isPlaying then "false" else "true";
      t == s.(outbox := s.outbox + [PauseReq(s.keyOAuth, s.keyCsrf, first), PauseReq(s.keyOAuth, s.keyCsrf, second)])
  {
    PlayToggleEffect(s);
    PlayToggleEffect(PlayToggle(s));
  }

  /** skip_prev and skip_next end by issuing one status request and change nothing else. */
  lemma SkipEffect(s: State)
    ensures Skip(s) == s.(outbox := s.outbox + [StatusReq(s.keyOAuth, s.keyCsrf)])
  {
  }

  // ---------------------------------------------------------------------
  // Search
  // ---------------------------------------------------------------------

  /**
   * search issues one request and changes nothing else. Its query is
   * "q=<text>&type=track&limit=5" exactly when the search field's text holds
   * no '#'; from a '#' on, the text, the type and the limit are cut off. The
   * field the server reads `q` from holds the text only up to its first '&'
   * or '#'.
   */
  lemma SearchEffect(s: State)
    ensures exists q :: Search(s) == s.(outbox := s.outbox + [SearchReq(q)])
    ensures Search(s).outbox[|s.outbox|].query == "q=" + s.searchField + "&type=track&limit=5" <==> '#' !in s.searchField
    ensures '#' in s.searchField ==> Search(s).outbox[|s.outbox|].query == "q=" + Before(s.searchField, {'#'})
    ensures LeadingField(Search(s).outbox[|s.outbox|].query) == "q=" + Before(s.searchField, {'&', '#'})
  {
    var text := s.searchField;
    assert Search(s) == s.(outbox := s.outbox + [SearchReq(SearchQuery(text, MaxResults))]);
    assert Decimal(MaxResults) == "5";
    assert TypeAndLimit + "5" == "&type=track&limit=5";
    assert "q=" + text + "&type=track&limit=5" == "q=" + text + TypeAndLimit + Decimal(MaxResults);
    QueryAsBuilt(text, MaxResults);
    if '#' in text {
      QueryCutAtFragment(text, MaxResults);
    }
    SearchedText(text, MaxResults);
  }

  /** Entered text replaces the search field and is searched for, as search does for it. */
  lemma KeyboardDoneEffect(s: State, text: string)
    ensures KeyboardDone(s, text) == Search(s.(searchField := text))
    ensures KeyboardDone(s, text).searchField == text
    ensures exists q :: KeyboardDone(s, text) == s.(searchField := text, outbox := s.outbox + [SearchReq(q)])
    ensures KeyboardDone(s, text).outbox[|s.outbox|].query == "q=" + text + "&type=track&limit=5" <==> '#' !in text
    ensures '#' in text ==> KeyboardDone(s, text).outbox[|s.outbox|].query == "q=" + Before(text, {'#'})
    ensures LeadingField(KeyboardDone(s, text).outbox[|s.outbox|].query) == "q=" + Before(text, {'&', '#'})
  {
    SearchEffect(s.(searchField := text));
  }

  /**
   * search_result replaces the whole result list: what it holds afterwards
   * does not depend on what it held before. An empty reply leaves it empty;
   * otherwise it has one entry per returned track, in the order returned,
   * with the track's name, first artist, album name and URI. Nothing else
   * changes and no request is issued.
   */
  lemma SearchResultReplaces(s: State, s': State, reply: SearchReply)
    requires s' == s.(results := s'.results)
    ensures SearchResult(s, reply) == SearchResult(s', reply)
    ensures var t := SearchResult(s, reply);
      && t == s.(results := t.results)
      && (reply.bodyEmpty ==> t.results == [])
      && (!reply.bodyEmpty ==> |t.results| == |reply.items|)
      && (!reply.bodyEmpty ==> forall i :: 0 <= i < |reply.items| ==>
            t.results[i] == ResultEntry(reply.items[i].name, reply.items[i].artistName,
                                        reply.items[i].albumName, reply.items[i].uri))
  {
  }

  /** Selecting the i-th result of a search plays the i-th returned track's URI. */
  lemma SelectAfterSearch(s: State, reply: SearchReply, i: nat)
    requires !reply.bodyEmpty && i < |reply.items|
    ensures var t := SearchResult(s, reply);
      SearchSelected(t, i) == Play(t, reply.items[i].uri)
  {
  }

  // ---------------------------------------------------------------------
  // Now playing
  // ---------------------------------------------------------------------

  /**
   * A status reply with a body sets the playing state from "playing" and
   * always issues a metadata request for its track, stripped of
   * "spotify:track:", whatever track is shown already. An empty reply
   * changes nothing.
   */
  lemma UpdateSpotifyStatusEffect(s: State, reply: StatusReply)
    ensures reply.bodyEmpty ==> UpdateSpotifyStatus(s, reply) == s
    ensures !reply.bodyEmpty ==>
      UpdateSpotifyStatus(s, reply) == s.(isPlaying := reply.playing, iconIsPause := reply.playing,
        outbox := s.outbox + [MetaReq(StripTrackPrefix(reply.trackUri))])
  {
  }

  /** A status reply without a track URI still asks for metadata, of the empty id. */
  lemma StatusWithoutTrack(s: State, playing: bool)
    ensures UpdateSpotifyStatus(s, StatusReply(false, playing, "")).outbox == s.outbox + [MetaReq("")]
  {
  }

  /**
   * A metadata reply with a body sets title, album and artist and issues one
   * request for its album image. An empty reply changes nothing.
   */
  lemma UpdateTrackInfoEffect(s: State, reply: TrackReply)
    ensures reply.bodyEmpty ==> UpdateTrackInfo(s, reply) == s
    ensures !reply.bodyEmpty ==>
      UpdateTrackInfo(s, reply) == s.(trackTitle := reply.name, trackAlbum := reply.albumName,
        trackArtist := reply.artistName, outbox := s.outbox + [ArtReq(reply.artUrl)])
  {
  }

  /** Downloaded art always replaces the shown art, a null image included. */
  lemma AlbumArtDownloadedEffect(s: State, image: Image)
    ensures AlbumArtDownloaded(s, image) == s.(albumArt := image)
  {
  }

  // ---------------------------------------------------------------------
  // Over any sequence of events
  // ---------------------------------------------------------------------

  /** setIsPlaying is the only writer of the flag and it sets the icon with it. */
  lemma StepKeepsIcon(s: State, e: Event)
    requires IconAgrees(s)
    ensures IconAgrees(Step(s, e))
  {
  }

  /** After construction and after every slot, the icon shows pause exactly while playing. */
  lemma {:induction false} RunKeepsIcon(s: State, events: seq<Event>)
    requires IconAgrees(s)
    ensures IconAgrees(Run(s, events))
    decreases |events|
  {
    if events != [] {
      StepKeepsIcon(s, events[0]);
      RunKeepsIcon(Step(s, events[0]), events[1..]);
    }
  }

  /** Requests once issued stay issued, in the order issued. */
  lemma {:induction false} RunExtendsOutbox(s: State, events: seq<Event>)
    ensures s.outbox <= Run(s, events).outbox
    decreases |events|
  {
    if events != [] {
      StepIssues(s, events[0]);
      RunExtendsOutbox(Step(s, events[0]), events[1..]);
    }
  }

  /** The endpoint a request goes to. */
  datatype RequestKind = OAuthKind | CsrfKind | StatusKind | PlayKind | PauseKind | MetaKind | ArtKind | SearchKind

  function KindOf(r: Request): RequestKind {
    match r
    case OAuthReq => OAuthKind
    case CsrfReq => CsrfKind
    case StatusReq(_, _) => StatusKind
    case PlayReq(_, _, _, _) => PlayKind
    case PauseReq(_, _, _) => PauseKind
    case MetaReq(_) => MetaKind
    case ArtReq(_) => ArtKind
    case SearchReq(_) => SearchKind
  }

  /** How many requests in `rs` go to endpoint `k`. */
  function CountKind(rs: seq<Request>, k: RequestKind): nat
    decreases |rs|
  {
    if rs == [] then 0
    else CountKind(rs[..|rs| - 1], k) + (if KindOf(rs[|rs| - 1]) == k then 1 else 0)
  }

  lemma {:induction false} CountKindAppend(a: seq<Request>, b: seq<Request>, k: RequestKind)
    ensures CountKind(a + b, k) == CountKind(a, k) + CountKind(b, k)
    decreases |b|
  {
    if b == [] {
      assert a + b == a;
    } else {
      assert (a + b)[..|a + b| - 1] == a + b[..|b| - 1];
      assert (a + b)[|a + b| - 1] == b[|b| - 1];
      CountKindAppend(a, b[..|b| - 1], k);
    }
  }

  /** OAuth replies with a body: the events that issue a CSRF request. */
  function CsrfTriggers(events: seq<Event>): nat
    decreases |events|
  {
    if events == [] then 0
    else (if events[0].OAuthReplied? && !events[0].oauth.bodyEmpty then 1 else 0) + CsrfTriggers(events[1..])
  }

  /** CSRF replies with a body and the two skip buttons: the events that issue a status request. */
  function StatusTriggers(events: seq<Event>): nat
    decreases |events|
  {
    if events == [] then 0
    else (if (events[0].CsrfReplied? && !events[0].csrf.bodyEmpty) || events[0].PrevPressed? || events[0].NextPressed?
          then 1 else 0) + StatusTriggers(events[1..])
  }

  /**
   * The requests each slot issues, in the order it issues them, listed per
   * event independently of the slot definitions.
   */
  function Issued(s: State, e: Event): seq<Request> {
    match e
    case OAuthReplied(r) => if r.bodyEmpty then [] else [CsrfReq]
    case CsrfReplied(r) => if r.bodyEmpty then [] else [StatusReq(s.keyOAuth, r.token)]
    case PlayRequested(uri) => [PlayReq(s.keyOAuth, s.keyCsrf, uri, uri), MetaReq(StripTrackPrefix(uri))]
    case TogglePressed => [PauseReq(s.keyOAuth, s.keyCsrf, if s.isPlaying then "true" else "false")]
    case PauseRequested => [PauseReq(s.keyOAuth, s.keyCsrf, "true")]
    case UnpauseRequested => [PauseReq(s.keyOAuth, s.keyCsrf, "false")]
    case PrevPressed => [StatusReq(s.keyOAuth, s.keyCsrf)]
    case NextPressed => [StatusReq(s.keyOAuth, s.keyCsrf)]
    case SearchRequested => [SearchReq(SearchQuery(s.searchField, 5))]
    case TextEntered(text) => [SearchReq(SearchQuery(text, 5))]
    case SearchReplied(_) => []
    case ResultSelected(i) =>
      if i < |s.results|
      then [PlayReq(s.keyOAuth, s.keyCsrf, s.results[i].uri, s.results[i].uri), MetaReq(StripTrackPrefix(s.results[i].uri))]
      else []
    case StatusReplied(r) => if r.bodyEmpty then [] else [MetaReq(StripTrackPrefix(r.trackUri))]
    case TrackReplied(r) => if r.bodyEmpty then [] else [ArtReq(r.artUrl)]
    case ArtDownloaded(_) => []
  }

  /** Every slot appends exactly the requests listed for it, and at most two. */
  lemma StepIssues(s: State, e: Event)
    ensures Step(s, e).outbox == s.outbox + Issued(s, e)
    ensures |Issued(s, e)| <= 2
  {
  }

  lemma CountSingle(r: Request, k: RequestKind)
    ensures CountKind([r], k) == if KindOf(r) == k then 1 else 0
  {
    assert [r][..0] == [];
  }

  lemma CountPair(a: Request, b: Request, k: RequestKind)
    ensures CountKind([a, b], k) == CountKind([a], k) + (if KindOf(b) == k then 1 else 0)
  {
    assert [a, b][..1] == [a];
  }

  /** Which of the listed requests go to the CSRF, status and OAuth endpoints. */
  lemma IssuedCounts(s: State, e: Event)
    ensures CountKind(Issued(s, e), CsrfKind) == CsrfTriggers([e])
    ensures CountKind(Issued(s, e), StatusKind) == StatusTriggers([e])
    ensures CountKind(Issued(s, e), OAuthKind) == 0
  {
    assert [e][1..] == [];
    assert CsrfTriggers([e]) == if e.OAuthReplied? && !e.oauth.bodyEmpty then 1 else 0;
    assert StatusTriggers([e]) == if (e.CsrfReplied? && !e.csrf.bodyEmpty) || e.PrevPressed? || e.NextPressed? then 1 else 0;
    var d := Issued(s, e);
    StepIssues(s, e);
    if |d| == 2 {
      assert d == [d[0], d[1]];
      forall k | k in {CsrfKind, StatusKind, OAuthKind}
        ensures CountKind(d, k) == (if KindOf(d[0]) == k then 1 else 0) + (if KindOf(d[1]) == k then 1 else 0)
      {
        CountPair(d[0], d[1], k);
        CountSingle(d[0], k);
      }
    } else if |d| == 1 {
      assert d == [d[0]];
      CountSingle(d[0], CsrfKind);
      CountSingle(d[0], StatusKind);
      CountSingle(d[0], OAuthKind);
    }
  }

  /** What one slot adds to the count of CSRF, status and OAuth requests. */
  lemma StepCounts(s: State, e: Event)
    ensures CountKind(Step(s, e).outbox, CsrfKind)
         == CountKind(s.outbox, CsrfKind) + CsrfTriggers([e])
    ensures CountKind(Step(s, e).outbox, StatusKind)
         == CountKind(s.outbox, StatusKind) + StatusTriggers([e])
    ensures CountKind(Step(s, e).outbox, OAuthKind) == CountKind(s.outbox, OAuthKind)
  {
    StepIssues(s, e);
    IssuedCounts(s, e);
    CountKindAppend(s.outbox, Issued(s, e), CsrfKind);
    CountKindAppend(s.outbox, Issued(s, e), StatusKind);
    CountKindAppend(s.outbox, Issued(s, e), OAuthKind);
  }

  /**
   * CSRF tokens are asked for only from oath_result: over any events, the
   * CSRF requests issued are exactly one per OAuth reply with a body.
   */
  lemma {:induction false} CsrfRequestsFollowOAuthReplies(s: State, events: seq<Event>)
    ensures CountKind(Run(s, events).outbox, CsrfKind) == CountKind(s.outbox, CsrfKind) + CsrfTriggers(events)
    decreases |events|
  {
    if events != [] {
      StepCounts(s, events[0]);
      CsrfRequestsFollowOAuthReplies(Step(s, events[0]), events[1..]);
    }
  }

  /**
   * Status requests are issued only by csrf_result, skip_prev and skip_next:
   * over any events, one per CSRF reply with a body and per skip.
   */
  lemma {:induction false} StatusRequestsFollowTriggers(s: State, events: seq<Event>)
    ensures CountKind(Run(s, events).outbox, StatusKind) == CountKind(s.outbox, StatusKind) + StatusTriggers(events)
    decreases |events|
  {
    if events != [] {
      StepCounts(s, events[0]);
      StatusRequestsFollowTriggers(Step(s, events[0]), events[1..]);
    }
  }

  /** The OAuth token is asked for once, at construction, and never again. */
  lemma {:induction false} SingleOAuthRequest(events: seq<Event>)
    ensures CountKind(Run(Init(), events).outbox, OAuthKind) == 1
  {
    OAuthRequestsUnchanged(Init(), events);
    assert Init().outbox == [] + [OAuthReq];
  }

  lemma {:induction false} OAuthRequestsUnchanged(s: State, events: seq<Event>)
    ensures CountKind(Run(s, events).outbox, OAuthKind) == CountKind(s.outbox, OAuthKind)
    decreases |events|
  {
    if events != [] {
      StepCounts(s, events[0]);
      OAuthRequestsUnchanged(Step(s, events[0]), events[1..]);
    }
  }

  /** Replies that store a token: an OAuth or a CSRF reply with a body. */
  predicate SetsToken(e: Event) {
    (e.OAuthReplied? && !e.oauth.bodyEmpty) || (e.CsrfReplied? && !e.csrf.bodyEmpty)
  }

  /** Only an OAuth reply with a body changes the OAuth token; only a CSRF reply with a body the CSRF token. */
  lemma StepTokens(s: State, e: Event)
    ensures Step(s, e).keyOAuth != s.keyOAuth ==> e.OAuthReplied? && !e.oauth.bodyEmpty
    ensures Step(s, e).keyCsrf != s.keyCsrf ==> e.CsrfReplied? && !e.csrf.bodyEmpty
  {
  }

  /**
   * Commands, empty token replies and all other replies never touch the
   * tokens: a run without a token reply that has a body leaves both as they are.
   */
  lemma {:induction false} RunKeepsTokens(s: State, events: seq<Event>)
    requires forall i :: 0 <= i < |events| ==> !SetsToken(events[i])
    ensures Run(s, events).keyOAuth == s.keyOAuth && Run(s, events).keyCsrf == s.keyCsrf
    decreases |events|
  {
    if events != [] {
      StepTokens(s, events[0]);
      assert !SetsToken(events[0]);
      assert forall i :: 0 <= i < |events[1..]| ==> events[1..][i] == events[i + 1];
      RunKeepsTokens(Step(s, events[0]), events[1..]);
    }
  }

  // ---------------------------------------------------------------------
  // Last reply wins
  // ---------------------------------------------------------------------

  datatype Option<T> = None | Some(value: T)

  /** Handling one more event after a run is one more step. */
  lemma {:induction false} RunSnoc(s: State, events: seq<Event>, e: Event)
    ensures Run(s, events + [e]) == Step(Run(s, events), e)
    decreases |events|
  {
    if events == [] {
      assert Run(s, [e]) == Run(Step(s, e), []);
    } else {
      assert (events + [e])[0] == events[0];
      assert (events + [e])[1..] == events[1..] + [e];
      RunSnoc(Step(s, events[0]), events[1..], e);
    }
  }

  /** The last metadata reply with a body among `events`, if there is one. */
  function LastTrackInfo(events: seq<Event>): Option<TrackReply>
    decreases |events|
  {
    if events == [] then None
    else
      var e := events[|events| - 1];
      if e.TrackReplied? && !e.track.bodyEmpty then Some(e.track) else LastTrackInfo(events[..|events| - 1])
  }

  /** The last image downloaded among `events`, if there is one. */
  function LastArt(events: seq<Event>): Option<Image>
    decreases |events|
  {
    if events == [] then None
    else
      var e := events[|events| - 1];
      if e.ArtDownloaded? then Some(e.image) else LastArt(events[..|events| - 1])
  }

  /** Only a metadata reply with a body sets the labels, and it sets all three. */
  lemma StepLabels(s: State, e: Event)
    ensures var t := Step(s, e);
      if e.TrackReplied? && !e.track.bodyEmpty
      then t.trackTitle == e.track.name && t.trackArtist == e.track.artistName && t.trackAlbum == e.track.albumName
      else t.trackTitle == s.trackTitle && t.trackArtist == s.trackArtist && t.trackAlbum == s.trackAlbum
  {
  }

  /** Only a downloaded image replaces the album art. */
  lemma StepArt(s: State, e: Event)
    ensures Step(s, e).albumArt == if e.ArtDownloaded? then e.image else s.albumArt
  {
  }

  /**
   * Replies are not matched to the request that caused them: after any run
   * the labels show the last metadata reply with a body, whichever track it
   * was asked for, or what they showed before when there was none.
   */
  lemma {:induction false} RunShowsLastTrackInfo(s: State, events: seq<Event>)
    ensures var t := Run(s, events);
      match LastTrackInfo(events)
      case None => t.trackTitle == s.trackTitle && t.trackArtist == s.trackArtist && t.trackAlbum == s.trackAlbum
      case Some(r) => t.trackTitle == r.name && t.trackArtist == r.artistName && t.trackAlbum == r.albumName
    decreases |events|
  {
    if events != [] {
      var init, e := events[..|events| - 1], events[|events| - 1];
      assert events == init + [e];
      RunSnoc(s, init, e);
      RunShowsLastTrackInfo(s, init);
      StepLabels(Run(s, init), e);
    }
  }

  /** After any run the album art is the last image downloaded, null or not, or the old art when there was none. */
  lemma {:induction false} RunShowsLastArt(s: State, events: seq<Event>)
    ensures Run(s, events).albumArt == match LastArt(events) case None => s.albumArt case Some(image) => image
    decreases |events|
  {
    if events != [] {
      var init, e := events[..|events| - 1], events[|events| - 1];
      assert events == init + [e];
      RunSnoc(s, init, e);
      RunShowsLastArt(s, init);
      StepArt(Run(s, init), e);
    }
  }

  // ---------------------------------------------------------------------
  // Scenarios
  // ---------------------------------------------------------------------

  /**
   * The handshake: {"t":"ABC"} then {"token":"XYZ"} leaves both tokens held
   * and the OAuth, CSRF and status requests issued in that order.
   */
  lemma HandshakeScenario()
    ensures var t := Run(Init(), [OAuthReplied(OAuthReply(false, "ABC")), CsrfReplied(CsrfReply(false, "XYZ"))]);
      t.keyOAuth == "ABC" && t.keyCsrf == "XYZ" && t.outbox == [OAuthReq, CsrfReq, StatusReq("ABC", "XYZ")]
  {
  }

  /**
   * An OAuth reply whose body lacks "t" still leads to a CSRF request, made
   * while no OAuth token is held.
   */
  lemma CsrfRequestedWithoutOAuthToken()
    ensures var t := OAuthResult(Init(), OAuthReply(false, ""));
      t.keyOAuth == "" && t.outbox == [OAuthReq, CsrfReq]
  {
  }

  /**
   * Toggling while paused issues exactly one pause-endpoint request with
   * pause=false and sets the playing state at once, even with no tokens held.
   */
  lemma ToggleWhilePausedScenario()
    ensures var t := PlayToggle(Init());
      t.isPlaying && t.iconIsPause && t.outbox == [OAuthReq, PauseReq("", "", "false")]
  {
  }

  /**
   * Searching for "AC#DC" sends only "q=AC": the rest of the text, the type
   * and the limit fall into the fragment.
   */
  lemma FragmentSearchScenario()
    ensures KeyboardDone(Init(), "AC#DC").outbox == [OAuthReq, SearchReq("q=AC")]
  {
    QueryCutAtFragment("AC#DC", MaxResults);
    assert Before("AC#DC", {'#'}) == "AC";
    assert SearchQuery("AC#DC", MaxResults) == "q=AC";
    assert KeyboardDone(Init(), "AC#DC").outbox == [OAuthReq] + [SearchReq(SearchQuery("AC#DC", MaxResults))];
  }
}
