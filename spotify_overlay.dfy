/**
 * The SpotifyOverlay class: its session and playback fields, updated in
 * place by its slots. Every slot is proved to leave the object in the state
 * the matching function of module Session gives, so the lemmas of module
 * SessionProperties apply to it; and every slot keeps the play button's icon
 * in step with isPlaying.
 */
module Overlay {
  import opened TrackUri
  import Session
  import SearchUrl

  class SpotifyOverlay {
    var keyOAuth: string
    var keyCsrf: string
    var isPlaying: bool
    /** Whether the play button shows pauseIcon (otherwise playIcon). */
    var iconIsPause: bool
    var trackTitle: string
    var trackArtist: string
    var trackAlbum: string
    var albumArt: Session.Image
    var searchField: string
    /** The buttons of the search result layout, top to bottom. */
    var results: seq<Session.ResultEntry>
    /** Every request handed to the network manager so far, oldest first. */
    var outbox: seq<Session.Request>
    const maxResults: nat := Session.MaxResults

    /** The fields as one value. */
    function Model(): Session.State
      reads this
    {
      Session.State(keyOAuth, keyCsrf, isPlaying, iconIsPause, trackTitle, trackArtist, trackAlbum,
                    albumArt, searchField, results, outbox)
    }

    /** The object invariant: the icon shows pause exactly while playing. */
    predicate Valid()
      reads this
    {
      Session.IconAgrees(Model())
    }

    /** Construction asks for the OAuth token straight away. */
    constructor ()
      ensures Valid() && Model() == Session.Init()
    {
      keyOAuth, keyCsrf := "", "";
      isPlaying, iconIsPause := false, false;
      trackTitle, trackArtist, trackAlbum := "", "", "";
      albumArt := Session.NullImage;
      searchField := "";
      results := [];
      outbox := [];
      new;
      GetTokenOAuth();
    }

    method GetTokenOAuth()
      modifies this
      ensures Model() == old(Model()).(outbox := old(outbox) + [Session.OAuthReq])
    {
      outbox := outbox + [Session.OAuthReq];
    }

    method GetTokenCsrf()
      modifies this
      ensures Model() == Session.GetTokenCsrf(old(Model()))
    {
      outbox := outbox + [Session.CsrfReq];
    }

    method GetSpotifyStatus()
      modifies this
      ensures Model() == Session.GetSpotifyStatus(old(Model()))
    {
      outbox := outbox + [Session.StatusReq(keyOAuth, keyCsrf)];
    }

    method SetIsPlaying(playing: bool)
      modifies this
      ensures Valid()
      ensures Model() == Session.SetIsPlaying(old(Model()), playing)
    {
      isPlaying := playing;
      if isPlaying {
        iconIsPause := true;
      } else {
        iconIsPause := false;
      }
    }

    method OAuthResult(reply: Session.OAuthReply)
      requires Valid()
      modifies this
      ensures Valid()
      ensures Model() == Session.OAuthResult(old(Model()), reply)
    {
      if !reply.bodyEmpty {
        keyOAuth := reply.t;
        GetTokenCsrf();
      }
    }

    method CsrfResult(reply: Session.CsrfReply)
      requires Valid()
      modifies this
      ensures Valid()
      ensures Model() == Session.CsrfResult(old(Model()), reply)
    {
      if !reply.bodyEmpty {
        keyCsrf := reply.token;
        GetSpotifyStatus();
      }
    }

    method Play(uri: string)
      requires Valid()
      modifies this
      ensures Valid()
      ensures Model() == Session.Play(old(Model()), uri)
    {
      SetIsPlaying(true);
      outbox := outbox + [Session.PlayReq(keyOAuth, keyCsrf, uri, uri)];
      var id := StripTrackPrefix(uri);
      outbox := outbox + [Session.MetaReq(id)];
    }

    method PlayToggle()
      requires Valid()
      modifies this
      ensures Valid()
      ensures Model() == Session.PlayToggle(old(Model()))
    {
      if isPlaying {
        Pause();
      } else {
        Unpause();
      }
    }

    method Pause()
      requires Valid()
      modifies this
      ensures Valid()
      ensures Model() == Session.Pause(old(Model()))
    {
      SetIsPlaying(false);
      outbox := outbox + [Session.PauseReq(keyOAuth, keyCsrf, Session.PauseOn)];
    }

    method Unpause()
      requires Valid()
      modifies this
      ensures Valid()
      ensures Model() == Session.Unpause(old(Model()))
    {
      SetIsPlaying(true);
      outbox := outbox + [Session.PauseReq(keyOAuth, keyCsrf, Session.PauseOff)];
    }

    /** skip_prev, after the media key press and release. */
    method SkipPrev()
      requires Valid()
      modifies this
      ensures Valid()
      ensures Model() == Session.Skip(old(Model()))
    {
      GetSpotifyStatus();
    }

    /** skip_next, after the media key press and release. */
    method SkipNext()
      requires Valid()
      modifies this
      ensures Valid()
      ensures Model() == Session.Skip(old(Model()))
    {
      GetSpotifyStatus();
    }

    method Search()
      requires Valid()
      modifies this
      ensures Valid()
      ensures Model() == Session.Search(old(Model()))
    {
      var query := searchField;
      outbox := outbox + [Session.SearchReq(SearchUrl.SearchQuery(query, maxResults))];
    }

    /** The end of openKeyboard, once the keyboard has returned `text`. */
    method KeyboardDone(text: string)
      requires Valid()
      modifies this
      ensures Valid()
      ensures Model() == Session.KeyboardDone(old(Model()), text)
    {
      searchField := text;
      Search();
    }

    /** search_result: empty the layout one item at a time, then add one button per track. */
    method SearchResult(reply: Session.SearchReply)
      requires Valid()
      modifies this
      ensures Valid()
      ensures Model() == Session.SearchResult(old(Model()), reply)
    {
      while |results| > 0
        invariant Model() == old(Model()).(results := results)
        decreases |results|
      {
        results := results[1..];
      }
      if !reply.bodyEmpty {
        var tracks := reply.items;
        for i := 0 to |tracks|
          invariant Model() == old(Model()).(results := Session.Entries(tracks[..i]))
        {
          var track := tracks[i];
          results := results + [Session.ResultEntry(track.name, track.artistName, track.albumName, track.uri)];
          assert tracks[..i + 1][..i] == tracks[..i];
        }
        assert tracks[..|tracks|] == tracks;
      }
    }

    /** search_selected, sent by the result button at `index`. */
    method SearchSelected(index: nat)
      requires Valid() && index < |results|
      modifies this
      ensures Valid()
      ensures Model() == Session.SearchSelected(old(Model()), index)
    {
      var uri := results[index].uri;
      Play(uri);
    }

    method UpdateSpotifyStatus(reply: Session.StatusReply)
      requires Valid()
      modifies this
      ensures Valid()
      ensures Model() == Session.UpdateSpotifyStatus(old(Model()), reply)
    {
      if !reply.bodyEmpty {
        SetIsPlaying(reply.playing);
        var uri := reply.trackUri;
        outbox := outbox + [Session.MetaReq(StripTrackPrefix(uri))];
      }
    }

    method UpdateTrackInfo(reply: Session.TrackReply)
      requires Valid()
      modifies this
      ensures Valid()
      ensures Model() == Session.UpdateTrackInfo(old(Model()), reply)
    {
      if !reply.bodyEmpty {
        trackTitle := reply.name;
        trackAlbum := reply.albumName;
        trackArtist := reply.artistName;
        outbox := outbox + [Session.ArtReq(reply.artUrl)];
      }
    }

    method AlbumArtDownloaded(image: Session.Image)
      requires Valid()
      modifies this
      ensures Valid()
      ensures Model() == Session.AlbumArtDownloaded(old(Model()), image)
    {
      albumArt := image;
    }
  }
}
