/**
 * Turning a Spotify track URI into the bare track id that the Web API's
 * /v1/tracks/ endpoint expects. The overlay does this with
 * QString::replace("spotify:track:", ""), which scans the string once from
 * left to right and deletes every non-overlapping occurrence it meets; the
 * text left behind is not scanned again.
 */
module TrackUri {

  /** The prefix the overlay removes from track URIs. */
  const TrackPrefix: string := "spotify:track:"

  /** `pat` occurs in `s` starting at index `i`. */
  predicate OccursAt(s: string, pat: string, i: nat) {
    i + |pat| <= |s| && s[i..i + |pat|] == pat
  }

  /** `pat` occurs somewhere in `s`. */
  ghost predicate Occurs(s: string, pat: string) {
    exists i: nat :: OccursAt(s, pat, i)
  }

  /**
   * Deletes, in one left-to-right pass, every non-overlapping occurrence of
   * `pat` in `s` (QString::replace with an empty replacement). The result is
   * either `s` itself or shorter than `s` by at least one copy of `pat`.
   */
  function RemoveAll(s: string, pat: string): (r: string)
    requires pat != []
    ensures |r| <= |s|
    ensures r == s || |r| <= |s| - |pat|
    decreases |s|
  {
    if |s| < |pat| then s
    else if s[..|pat|] == pat then RemoveAll(s[|pat|..], pat)
    else [s[0]] + RemoveAll(s[1..], pat)
  }

  /** `uri.replace("spotify:track:", "")`. */
  function StripTrackPrefix(uri: string): string {
    RemoveAll(uri, TrackPrefix)
  }

  /** An occurrence at `i + 1` in `s` is an occurrence at `i` in `s[1..]`. */
  lemma OccursAtTail(s: string, pat: string, i: nat)
    requires |s| > 0
    ensures OccursAt(s, pat, i + 1) <==> OccursAt(s[1..], pat, i)
  {
    if i + 1 + |pat| <= |s| {
      assert s[i + 1..i + 1 + |pat|] == s[1..][i..i + |pat|];
    }
  }

  /** Removal leaves `s` as it is exactly when `pat` does not occur in it. */
  lemma {:induction false} RemoveAllFixedIff(s: string, pat: string)
    requires pat != []
    ensures RemoveAll(s, pat) == s <==> !Occurs(s, pat)
    decreases |s|
  {
    if |s| < |pat| {
      assert forall i: nat :: !OccursAt(s, pat, i);
    } else if s[..|pat|] == pat {
      assert OccursAt(s, pat, 0);
    } else {
      RemoveAllFixedIff(s[1..], pat);
      var r := RemoveAll(s, pat);
      assert r == [s[0]] + RemoveAll(s[1..], pat);
      assert r == s <==> RemoveAll(s[1..], pat) == s[1..] by {
        if r == s { assert r[1..] == s[1..]; }
      }
      if Occurs(s, pat) {
        var i: nat :| OccursAt(s, pat, i);
        assert i != 0;
        OccursAtTail(s, pat, i - 1);
        assert OccursAt(s[1..], pat, i - 1);
      }
      if Occurs(s[1..], pat) {
        var i: nat :| OccursAt(s[1..], pat, i);
        OccursAtTail(s, pat, i);
        assert OccursAt(s, pat, i + 1);
      }
    }
  }

  /**
   * Characters before the first occurrence are copied through unchanged:
   * if `pat` starts at none of the first `n` positions, removal keeps
   * `s[..n]` and works on the rest.
   */
  lemma {:induction false} RemoveAllKeepsPrefix(s: string, pat: string, n: nat)
    requires pat != [] && n <= |s|
    requires forall i: nat :: i < n ==> !OccursAt(s, pat, i)
    ensures RemoveAll(s, pat) == s[..n] + RemoveAll(s[n..], pat)
    decreases n
  {
    if n > 0 {
      assert !OccursAt(s, pat, 0);
      if |s| < |pat| {
        assert RemoveAll(s[n..], pat) == s[n..];
        assert s[..n] + s[n..] == s;
      } else {
        forall i: nat | i < n - 1 ensures !OccursAt(s[1..], pat, i) {
          OccursAtTail(s, pat, i);
        }
        RemoveAllKeepsPrefix(s[1..], pat, n - 1);
        assert s[1..][n - 1..] == s[n..];
        assert [s[0]] + s[1..][..n - 1] == s[..n];
      }
    }
  }

  /**
   * The case the overlay relies on: a track URI made of the prefix followed
   * by an id that does not itself contain the prefix yields exactly that id.
   */
  lemma StripTrackUri(id: string)
    requires !Occurs(id, TrackPrefix)
    ensures StripTrackPrefix(TrackPrefix + id) == id
  {
    var uri := TrackPrefix + id;
    assert uri[..|TrackPrefix|] == TrackPrefix;
    assert uri[|TrackPrefix|..] == id;
    RemoveAllFixedIff(id, TrackPrefix);
  }

  /** A string without the prefix (an id, or an empty URI) is passed through. */
  lemma StripWithoutPrefix(uri: string)
    requires !Occurs(uri, TrackPrefix)
    ensures StripTrackPrefix(uri) == uri
  {
    RemoveAllFixedIff(uri, TrackPrefix);
  }

  /**
   * Deleting an occurrence can join the text around it into a new copy of
   * `pat`, which the single pass leaves in place: when the first character of
   * `pat` does not reappear in `pat[1..k+1]`, removing from
   * `pat[..k] + pat + pat[k..]` yields `pat` again.
   */
  lemma {:induction false} RemovalCanFormPattern(pat: string, k: nat)
    requires 0 < k < |pat|
    requires forall i :: 0 < i <= k ==> pat[i] != pat[0]
    ensures RemoveAll(pat[..k] + pat + pat[k..], pat) == pat
  {
    var s := pat[..k] + pat + pat[k..];
    calc {
      RemoveAll(s, pat);
    ==  { NoOccurrenceBefore(pat, k); RemoveAllKeepsPrefix(s, pat, k); }
      s[..k] + RemoveAll(s[k..], pat);
    ==  { assert s[..k] == pat[..k] && s[k..] == pat + pat[k..];
          RemoveAllLeading(pat, pat[k..]);
          assert RemoveAll(pat[k..], pat) == pat[k..]; }
      pat[..k] + pat[k..];
    ==
      pat;
    }
  }

  /** A leading occurrence is deleted and the scan resumes right after it. */
  lemma RemoveAllLeading(pat: string, t: string)
    requires pat != []
    ensures RemoveAll(pat + t, pat) == RemoveAll(t, pat)
  {
    assert (pat + t)[..|pat|] == pat;
    assert (pat + t)[|pat|..] == t;
  }

  /** In `pat[..k] + pat + pat[k..]`, the first occurrence starts at `k`. */
  lemma {:induction false} NoOccurrenceBefore(pat: string, k: nat)
    requires 0 < k < |pat|
    requires forall i :: 0 < i <= k ==> pat[i] != pat[0]
    ensures forall i: nat :: i < k ==> !OccursAt(pat[..k] + pat + pat[k..], pat, i)
  {
    var s := pat[..k] + pat + pat[k..];
    forall i: nat | i < k ensures !OccursAt(s, pat, i) {
      if i == 0 {
        assert s[k] == pat[0];
        MismatchAt(s, pat, 0, k);
      } else {
        assert s[i] == pat[i];
        MismatchAt(s, pat, i, 0);
      }
    }
  }

  /** One differing character rules out an occurrence. */
  lemma MismatchAt(s: string, pat: string, i: nat, j: nat)
    requires j < |pat| && i + j < |s| && s[i + j] != pat[j]
    ensures !OccursAt(s, pat, i)
  {
  }

  /**
   * The overlay's stripping is not idempotent: a status URI such as
   * "spotify:tspotify:track:rack:" still contains the prefix afterwards.
   */
  lemma StripIsSinglePass()
    ensures StripTrackPrefix("spotify:tspotify:track:rack:") == TrackPrefix
  {
    assert TrackPrefix[..9] + TrackPrefix + TrackPrefix[9..] == "spotify:tspotify:track:rack:";
    RemovalCanFormPattern(TrackPrefix, 9);
  }
}
