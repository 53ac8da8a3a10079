/**
  The records the playlist service returns, as typed values, and the two
  renderings the program derives from them: an album entry and a one-line
  track description.
 */
module Playlist {
  import opened Wrappers
  import opened Text
  import opened Dates

  datatype Artist = Artist(name: string)

  /** The album embedded in a track. */
  datatype AlbumInfo = AlbumInfo(id: string, name: string, artists: seq<Artist>, uri: string)

  datatype TrackInfo = TrackInfo(name: string, artists: seq<Artist>, album: AlbumInfo)

  /** One playlist entry: when it was added (already parsed) and the track. */
  datatype PlaylistTrack = PlaylistTrack(addedAt: CalendarDate, track: TrackInfo)

  /** The entry kept per album: date, name, joined artist names and uri; the id is only its key. */
  datatype Album = Album(date: string, name: string, artists: string, uri: string)

  function Names(artists: seq<Artist>): (names: seq<string>)
    ensures |names| == |artists|
    ensures forall i :: 0 <= i < |artists| ==> names[i] == artists[i].name
  {
    if |artists| == 0 then [] else [artists[0].name] + Names(artists[1..])
  }

  /** No artist name contains a comma, so the joined list can be split again. */
  predicate CommaFree(artists: seq<Artist>) {
    forall i :: 0 <= i < |artists| ==> ',' !in artists[i].name
  }

  function AlbumId(t: PlaylistTrack): string {
    t.track.album.id
  }

  /** The album entry a track produces when it is the first to mention its album. */
  function AlbumOf(t: PlaylistTrack): Album {
    var info := t.track.album;
    Album(FormatDate(t.addedAt), info.name, Join(Names(info.artists), ArtistSeparator), info.uri)
  }

  /**
    An album entry's date is the track's added date rendered `MM/DD/YYYY`, and
    its artists field lists the album's artist names in order.
   */
  lemma AlbumOfFields(t: PlaylistTrack)
    ensures ParseDate(AlbumOf(t).date) == Some(t.addedAt)
    ensures AlbumOf(t).name == t.track.album.name && AlbumOf(t).uri == t.track.album.uri
    ensures |t.track.album.artists| > 0 && CommaFree(t.track.album.artists) ==>
              Split(AlbumOf(t).artists, ArtistSeparator) == Names(t.track.album.artists)
  {
    FormatThenParse(t.addedAt);
    var artists := t.track.album.artists;
    if |artists| > 0 && CommaFree(artists) {
      SplitJoin(Names(artists), ArtistSeparator);
    }
  }

  /** `track_string`: "Track Name - Artist1, Artist2". */
  function TrackString(t: TrackInfo): string {
    t.name + " - " + Join(Names(t.artists), ArtistSeparator)
  }

  /** The description starts with the track name and " - ", and ends with the artist names in order. */
  lemma TrackStringParts(t: TrackInfo)
    ensures var s := TrackString(t);
      && |s| >= |t.name| + 3
      && s[..|t.name|] == t.name
      && s[|t.name|..|t.name| + 3] == " - "
      && (|t.artists| == 0 ==> |s| == |t.name| + 3)
      && (|t.artists| > 0 && CommaFree(t.artists) ==>
            Split(s[|t.name| + 3..], ArtistSeparator) == Names(t.artists))
  {
    var s := TrackString(t);
    var rest := Join(Names(t.artists), ArtistSeparator);
    assert s[|t.name| + 3..] == rest;
    if |t.artists| > 0 && CommaFree(t.artists) {
      SplitJoin(Names(t.artists), ArtistSeparator);
    }
  }
}
