/**
  `get_albums` end to end: fetch every playlist entry, keep one album entry
  per album id from its first mention, and sort the entries by date string.
 */
module Albums {
  import opened Wrappers
  import opened Playlist
  import opened Pagination
  import opened Aggregation
  import opened Sorting

  /** The album list the program derives from the fetched entries. */
  function AlbumList(tracks: seq<PlaylistTrack>): seq<Album> {
    SortByDate(FirstAlbums(tracks))
  }

  lemma {:induction false} DistinctCardinality(keys: seq<string>)
    requires Distinct(keys)
    ensures |set k | k in keys| == |keys|
  {
    if |keys| > 0 {
      var rest := keys[1..];
      assert Distinct(rest);
      DistinctCardinality(rest);
      assert (set k | k in keys) == (set k | k in rest) + {keys[0]};
      assert keys[0] !in rest;
    }
  }

  /** The returned list holds one entry per distinct album id. */
  lemma AlbumListCount(tracks: seq<PlaylistTrack>)
    ensures |AlbumList(tracks)| == |AlbumIds(tracks)|
  {
    var keys := FirstKeys(tracks);
    FirstKeysDistinct(tracks);
    FirstKeysMembers(tracks);
    DistinctCardinality(keys);
    assert (set k | k in keys) == AlbumIds(tracks);
    SortByDatePermutes(FirstAlbums(tracks));
    assert |multiset(AlbumList(tracks))| == |multiset(FirstAlbums(tracks))|;
  }

  /** Every entry of the returned list is the one built from the first mention of some album. */
  lemma AlbumListSound(tracks: seq<PlaylistTrack>)
    ensures forall a :: a in AlbumList(tracks) ==>
              exists id :: id in AlbumIds(tracks) && a == AlbumFor(tracks, id)
  {
    var values := FirstAlbums(tracks);
    SortByDatePermutes(values);
    forall a | a in AlbumList(tracks)
      ensures exists id :: id in AlbumIds(tracks) && a == AlbumFor(tracks, id)
    {
      assert a in multiset(AlbumList(tracks));
      assert a in multiset(values);
      var i :| 0 <= i < |values| && values[i] == a;
      assert FirstKeys(tracks)[i] in AlbumIds(tracks);
    }
  }

  /** Every mentioned album's entry is in the returned list. */
  lemma AlbumListComplete(tracks: seq<PlaylistTrack>)
    ensures forall id :: id in AlbumIds(tracks) ==> AlbumFor(tracks, id) in AlbumList(tracks)
  {
    var values := FirstAlbums(tracks);
    var keys := FirstKeys(tracks);
    FirstKeysMembers(tracks);
    SortByDatePermutes(values);
    forall id | id in AlbumIds(tracks)
      ensures AlbumFor(tracks, id) in AlbumList(tracks)
    {
      var i :| 0 <= i < |keys| && keys[i] == id;
      assert values[i] in multiset(values);
      assert values[i] in multiset(AlbumList(tracks));
    }
  }

  /**
    The returned list is ascending by date string and a reordering of the
    dictionary's values; entries with equal date strings keep the order in
    which their albums first appeared in the playlist.
   */
  lemma AlbumListOrder(tracks: seq<PlaylistTrack>)
    ensures SortedByDate(AlbumList(tracks))
    ensures multiset(AlbumList(tracks)) == multiset(FirstAlbums(tracks))
    ensures forall k :: WithDate(AlbumList(tracks), k) == WithDate(FirstAlbums(tracks), k)
  {
    var values := FirstAlbums(tracks);
    SortByDatePermutes(values);
    SortByDateSorted(values);
    forall k ensures WithDate(AlbumList(tracks), k) == WithDate(values, k) {
      SortByDateStable(values, k);
    }
  }

  /**
    `get_albums`. The request budget stands in for the service eventually
    reporting a total the held entries reach; when it runs out first the
    result is `None`.
   */
  method GetAlbums(source: nat -> Page, budget: nat) returns (result: Option<seq<Album>>)
    ensures var fetched := Paginate(source, [], 1, budget);
      && (result.Some? <==> fetched.complete)
      && (result.Some? ==> result.value == AlbumList(fetched.tracks))
  {
    var tracks, offsets, complete := FetchAllTracks(source, budget);
    if !complete {
      return None;
    }
    var albumMap, keys := AggregateAlbums(tracks);
    var values := ValuesAt(albumMap, keys);
    ValuesInInsertionOrder(tracks, albumMap, keys);
    result := Some(SortByDate(values));
  }
}
