/**
  Grouping playlist entries by album. The program walks the entries in fetch
  order and keeps, per album id, the entry of the first one that mentions it.
  Python dictionaries remember insertion order, so the dictionary is modelled
  as a map together with the sequence of its keys in insertion order.
 */
module Aggregation {
  import opened Playlist

  /** The album ids the entries mention. */
  function AlbumIds(ts: seq<PlaylistTrack>): set<string> {
    set t | t in ts :: AlbumId(t)
  }

  lemma AlbumIdsAppend(ts: seq<PlaylistTrack>, t: PlaylistTrack)
    ensures AlbumIds(ts + [t]) == AlbumIds(ts) + {AlbumId(t)}
  {
    assert forall u :: u in ts + [t] <==> u in ts || u == t;
  }

  /** The position of the first entry mentioning `id`, or `|ts|` when none does. */
  function FirstIndex(ts: seq<PlaylistTrack>, id: string): (r: nat)
    ensures r <= |ts|
    ensures r < |ts| ==> AlbumId(ts[r]) == id
    ensures forall j :: 0 <= j < r ==> AlbumId(ts[j]) != id
    ensures r < |ts| <==> id in AlbumIds(ts)
  {
    if |ts| == 0 then 0
    else if AlbumId(ts[0]) == id then 0
    else
      var r := 1 + FirstIndex(ts[1..], id);
      assert forall t :: t in ts[1..] ==> t in ts;
      assert r < |ts| ==> ts[r] in ts;
      assert id in AlbumIds(ts) ==> id in AlbumIds(ts[1..]) by {
        if id in AlbumIds(ts) {
          var t :| t in ts && AlbumId(t) == id;
          var k :| 0 <= k < |ts| && ts[k] == t;
          assert k > 0 && ts[1..][k - 1] == t;
        }
      }
      r
  }

  predicate Distinct(keys: seq<string>) {
    forall i, j :: 0 <= i < j < |keys| ==> keys[i] != keys[j]
  }

  /** The dictionary's keys in insertion order: each album id, once, where it first occurs. */
  function FirstKeys(ts: seq<PlaylistTrack>): seq<string>
    decreases |ts|
  {
    if |ts| == 0 then []
    else
      var prev := FirstKeys(ts[..|ts| - 1]);
      var id := AlbumId(ts[|ts| - 1]);
      if id in prev then prev else prev + [id]
  }

  /** The keys are exactly the album ids the entries mention. */
  lemma {:induction false} FirstKeysMembers(ts: seq<PlaylistTrack>)
    ensures forall id :: id in FirstKeys(ts) <==> id in AlbumIds(ts)
    decreases |ts|
  {
    if |ts| > 0 {
      var init := ts[..|ts| - 1];
      assert ts == init + [ts[|ts| - 1]];
      FirstKeysMembers(init);
      AlbumIdsAppend(init, ts[|ts| - 1]);
    }
  }

  /** The first position of an id already mentioned in a prefix is its first position in the prefix. */
  lemma FirstIndexInPrefix(ts: seq<PlaylistTrack>, n: nat, id: string)
    requires n <= |ts| && id in AlbumIds(ts[..n])
    ensures FirstIndex(ts, id) == FirstIndex(ts[..n], id)
  {
    var r := FirstIndex(ts[..n], id);
    assert ts[r] == ts[..n][r];
  }

  /** An entry whose album no earlier entry mentions is that album's first mention. */
  lemma FirstIndexAtNew(ts: seq<PlaylistTrack>, i: nat)
    requires i < |ts| && AlbumId(ts[i]) !in AlbumIds(ts[..i])
    ensures FirstIndex(ts, AlbumId(ts[i])) == i
  {
  }

  /** No album id is a key twice. */
  lemma {:induction false} FirstKeysDistinct(ts: seq<PlaylistTrack>)
    ensures Distinct(FirstKeys(ts))
    decreases |ts|
  {
    if |ts| > 0 {
      FirstKeysDistinct(ts[..|ts| - 1]);
    }
  }

  /** The keys are ordered by the position of the first entry mentioning them. */
  lemma {:induction false} FirstKeysOrdered(ts: seq<PlaylistTrack>)
    ensures forall i, j :: 0 <= i < j < |FirstKeys(ts)| ==>
              FirstIndex(ts, FirstKeys(ts)[i]) < FirstIndex(ts, FirstKeys(ts)[j])
    decreases |ts|
  {
    if |ts| > 0 {
      var n := |ts| - 1;
      var init := ts[..n];
      FirstKeysOrdered(init);
      FirstKeysMembers(init);
      var prev, keys := FirstKeys(init), FirstKeys(ts);
      forall i, j | 0 <= i < j < |keys|
        ensures FirstIndex(ts, keys[i]) < FirstIndex(ts, keys[j])
      {
        assert keys[i] == prev[i];
        FirstIndexInPrefix(ts, n, prev[i]);
        if j < |prev| {
          assert keys[j] == prev[j];
          FirstIndexInPrefix(ts, n, prev[j]);
        } else {
          FirstIndexAtNew(ts, n);
        }
      }
    }
  }

  /** An entry added later never changes the dictionary's earlier keys. */
  lemma FirstKeysGrow(ts: seq<PlaylistTrack>, t: PlaylistTrack)
    ensures var before := FirstKeys(ts);
      var after := FirstKeys(ts + [t]);
      |before| <= |after| && after[..|before|] == before
  {
    assert (ts + [t])[..|ts|] == ts;
  }

  /** The entry kept for album `id`: the one built from the first entry mentioning it. */
  function AlbumFor(ts: seq<PlaylistTrack>, id: string): Album
    requires id in AlbumIds(ts)
  {
    AlbumOf(ts[FirstIndex(ts, id)])
  }

  /** Entries added later never change what is kept for an album already seen. */
  lemma FirstWins(ts: seq<PlaylistTrack>, more: seq<PlaylistTrack>, id: string)
    requires id in AlbumIds(ts)
    ensures id in AlbumIds(ts + more)
    ensures AlbumFor(ts + more, id) == AlbumFor(ts, id)
  {
    var r := FirstIndex(ts, id);
    assert (ts + more)[r] == ts[r];
    assert forall j :: 0 <= j < r ==> (ts + more)[j] == ts[j];
  }

  /** How one more entry changes the keys and the mentioned ids. */
  lemma FirstKeysStep(ts: seq<PlaylistTrack>, i: nat)
    requires i < |ts|
    ensures var id := AlbumId(ts[i]);
      && AlbumIds(ts[..i + 1]) == AlbumIds(ts[..i]) + {id}
      && FirstKeys(ts[..i + 1]) == (if id in AlbumIds(ts[..i]) then FirstKeys(ts[..i]) else FirstKeys(ts[..i]) + [id])
  {
    assert ts[..i + 1] == ts[..i] + [ts[i]];
    assert ts[..i + 1][..i] == ts[..i];
    FirstKeysMembers(ts[..i]);
    AlbumIdsAppend(ts[..i], ts[i]);
  }

  /** `album_map.values()`: the dictionary's values in insertion order. */
  function FirstAlbums(ts: seq<PlaylistTrack>): (albums: seq<Album>)
    ensures |albums| == |FirstKeys(ts)|
    ensures forall i :: 0 <= i < |albums| ==>
              FirstKeys(ts)[i] in AlbumIds(ts) && albums[i] == AlbumFor(ts, FirstKeys(ts)[i])
  {
    FirstKeysMembers(ts);
    var keys := FirstKeys(ts);
    seq(|keys|, i requires 0 <= i < |keys| => AlbumFor(ts, keys[i]))
  }

  /** The values stored under `keys`, in that order. */
  function ValuesAt(m: map<string, Album>, keys: seq<string>): (values: seq<Album>)
    requires forall k :: k in keys ==> k in m
    ensures |values| == |keys|
    ensures forall i :: 0 <= i < |keys| ==> values[i] == m[keys[i]]
  {
    if |keys| == 0 then [] else [m[keys[0]]] + ValuesAt(m, keys[1..])
  }

  /** Reading the loop's dictionary in insertion order gives `FirstAlbums`. */
  lemma ValuesInInsertionOrder(ts: seq<PlaylistTrack>, m: map<string, Album>, keys: seq<string>)
    requires m.Keys == AlbumIds(ts) && keys == FirstKeys(ts)
    requires forall id :: id in m ==> m[id] == AlbumOf(ts[FirstIndex(ts, id)])
    requires forall k :: k in keys ==> k in m
    ensures ValuesAt(m, keys) == FirstAlbums(ts)
  {
    var values, albums := ValuesAt(m, keys), FirstAlbums(ts);
    forall i | 0 <= i < |keys| ensures values[i] == albums[i] {
      assert keys[i] in m;
    }
  }

  /**
    The grouping loop's state after the first `i` entries: the keys in
    insertion order, the mentioned ids as the map's keys, and under each id
    the entry built from its first mention.
   */
  predicate Grouped(tracks: seq<PlaylistTrack>, i: nat, m: map<string, Album>, keys: seq<string>)
    requires i <= |tracks|
  {
    && keys == FirstKeys(tracks[..i])
    && m.Keys == AlbumIds(tracks[..i])
    && forall id :: id in m ==> FirstIndex(tracks, id) < i && m[id] == AlbumOf(tracks[FirstIndex(tracks, id)])
  }

  /** An entry whose album is already a key leaves the loop's state as it is. */
  lemma GroupedKnown(tracks: seq<PlaylistTrack>, i: nat, m: map<string, Album>, keys: seq<string>)
    requires i < |tracks| && Grouped(tracks, i, m, keys) && AlbumId(tracks[i]) in m
    ensures Grouped(tracks, i + 1, m, keys)
  {
    FirstKeysStep(tracks, i);
  }

  /** An entry with a new album adds its id as the last key, with its own album entry. */
  lemma GroupedNew(tracks: seq<PlaylistTrack>, i: nat, m: map<string, Album>, keys: seq<string>)
    requires i < |tracks| && Grouped(tracks, i, m, keys) && AlbumId(tracks[i]) !in m
    ensures Grouped(tracks, i + 1, m[AlbumId(tracks[i]) := AlbumOf(tracks[i])], keys + [AlbumId(tracks[i])])
  {
    var id := AlbumId(tracks[i]);
    var m' := m[id := AlbumOf(tracks[i])];
    FirstKeysStep(tracks, i);
    FirstIndexAtNew(tracks, i);
    forall k | k in m'
      ensures FirstIndex(tracks, k) < i + 1 && m'[k] == AlbumOf(tracks[FirstIndex(tracks, k)])
    {
      if k != id {
        assert k in m;
      }
    }
  }

  /** After every entry, the state is the whole dictionary `get_albums` builds. */
  lemma GroupedAll(tracks: seq<PlaylistTrack>, m: map<string, Album>, keys: seq<string>)
    requires Grouped(tracks, |tracks|, m, keys)
    ensures m.Keys == AlbumIds(tracks)
    ensures forall id :: id in m ==> m[id] == AlbumOf(tracks[FirstIndex(tracks, id)])
    ensures keys == FirstKeys(tracks)
    ensures Distinct(keys) && forall id :: id in keys <==> id in m
  {
    assert tracks[..|tracks|] == tracks;
    FirstKeysDistinct(tracks);
    FirstKeysMembers(tracks);
  }

  /**
    `get_albums`' grouping loop: each entry whose album id is not yet a key
    adds that id with the album entry built from it; an entry whose album is
    already present changes nothing.
   */
  method AggregateAlbums(tracks: seq<PlaylistTrack>) returns (albumMap: map<string, Album>, keys: seq<string>)
    ensures albumMap.Keys == AlbumIds(tracks)
    ensures forall id :: id in albumMap ==> albumMap[id] == AlbumOf(tracks[FirstIndex(tracks, id)])
    ensures keys == FirstKeys(tracks)
    ensures Distinct(keys) && forall id :: id in keys <==> id in albumMap
  {
    albumMap, keys := map[], [];
    for i := 0 to |tracks|
      invariant Grouped(tracks, i, albumMap, keys)
    {
      var t := tracks[i];
      var id := AlbumId(t);
      if id in albumMap {
        GroupedKnown(tracks, i, albumMap, keys);
      } else {
        GroupedNew(tracks, i, albumMap, keys);
        albumMap := albumMap[id := AlbumOf(t)];
        keys := keys + [id];
      }
    }
    GroupedAll(tracks, albumMap, keys);
  }
}
