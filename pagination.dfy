/**
  Fetching every entry of the playlist page by page. The service is a
  function from the requested offset to the page it answers with; each page
  carries some entries and the total the service reports.
 */
module Pagination {
  import opened Playlist

  datatype Page = Page(items: seq<PlaylistTrack>, total: nat)

  /** What a run of the loop leaves: the entries, the offsets requested in order, and whether it finished. */
  datatype Fetched = Fetched(tracks: seq<PlaylistTrack>, offsets: seq<nat>, complete: bool)

  /**
    The loop from a state holding `tracks` with reported `total`, allowed at
    most `budget` more requests: while fewer entries are held than the total,
    request the page at offset `|tracks|`, append its items, and take its total.
   */
  function Paginate(source: nat -> Page, tracks: seq<PlaylistTrack>, total: nat, budget: nat): Fetched
    decreases budget
  {
    if |tracks| >= total then Fetched(tracks, [], true)
    else if budget == 0 then Fetched(tracks, [], false)
    else
      var page := source(|tracks|);
      var rest := Paginate(source, tracks + page.items, page.total, budget - 1);
      Fetched(rest.tracks, [|tracks|] + rest.offsets, rest.complete)
  }

  /** The items of the pages at the given offsets, concatenated in request order. */
  function Collected(source: nat -> Page, offsets: seq<nat>): seq<PlaylistTrack> {
    if |offsets| == 0 then [] else source(offsets[0]).items + Collected(source, offsets[1..])
  }

  /** The entries a run leaves are the held ones followed by the requested pages' items, in order. */
  lemma {:induction false} PaginateTracks(source: nat -> Page, tracks: seq<PlaylistTrack>, total: nat, budget: nat)
    ensures var r := Paginate(source, tracks, total, budget);
      r.tracks == tracks + Collected(source, r.offsets)
    decreases budget
  {
    if |tracks| < total && budget > 0 {
      var page := source(|tracks|);
      var next := tracks + page.items;
      var rest := Paginate(source, next, page.total, budget - 1);
      PaginateTracks(source, next, page.total, budget - 1);
      var offs := [|tracks|] + rest.offsets;
      assert offs[1..] == rest.offsets;
      assert Collected(source, offs) == page.items + Collected(source, rest.offsets);
    }
  }

  /** Each offset equals `held` plus the number of items the earlier requests returned. */
  predicate OffsetsFollowCount(source: nat -> Page, held: nat, offsets: seq<nat>) {
    forall i :: 0 <= i < |offsets| ==> offsets[i] == held + |Collected(source, offsets[..i])|
  }

  /** Each request asks for the offset equal to the number of entries held when it is made. */
  lemma {:induction false} PaginateOffsets(source: nat -> Page, tracks: seq<PlaylistTrack>, total: nat, budget: nat)
    ensures OffsetsFollowCount(source, |tracks|, Paginate(source, tracks, total, budget).offsets)
    decreases budget
  {
    if |tracks| < total && budget > 0 {
      var page := source(|tracks|);
      var next := tracks + page.items;
      var rest := Paginate(source, next, page.total, budget - 1);
      PaginateOffsets(source, next, page.total, budget - 1);
      var offs := [|tracks|] + rest.offsets;
      forall i | 0 <= i < |offs|
        ensures offs[i] == |tracks| + |Collected(source, offs[..i])|
      {
        if i > 0 {
          assert offs[i] == rest.offsets[i - 1];
          assert rest.offsets[i - 1] == |next| + |Collected(source, rest.offsets[..i - 1])|;
          assert offs[..i][0] == |tracks| && offs[..i][1..] == rest.offsets[..i - 1];
          assert Collected(source, offs[..i]) == page.items + Collected(source, rest.offsets[..i - 1]);
          assert |next| == |tracks| + |page.items|;
        } else {
          assert offs[..i] == [];
        }
      }
    }
  }

  /**
    A request is made only while fewer entries are held than the latest
    reported total; a run is complete exactly when it stopped because the held
    count reached that total, and an incomplete run used its whole budget.
   */
  lemma {:induction false} PaginateStops(source: nat -> Page, tracks: seq<PlaylistTrack>, total: nat, budget: nat)
    ensures var r := Paginate(source, tracks, total, budget);
      && (|r.offsets| > 0 <==> |tracks| < total && budget > 0)
      && (forall i :: 0 <= i < |r.offsets| - 1 ==> r.offsets[i + 1] < source(r.offsets[i]).total)
      && (|r.offsets| > 0 ==> (r.complete <==> |r.tracks| >= source(r.offsets[|r.offsets| - 1]).total))
      && (|r.offsets| == 0 ==> (r.complete <==> |tracks| >= total))
      && (!r.complete ==> |r.offsets| == budget)
    decreases budget
  {
    if |tracks| < total && budget > 0 {
      var page := source(|tracks|);
      var next := tracks + page.items;
      var rest := Paginate(source, next, page.total, budget - 1);
      PaginateStops(source, next, page.total, budget - 1);
      if |rest.offsets| > 0 {
        PaginateOffsets(source, next, page.total, budget - 1);
        assert rest.offsets[..0] == [];
      }
      var offs := [|tracks|] + rest.offsets;
      assert forall i :: 1 <= i < |offs| ==> offs[i] == rest.offsets[i - 1];
    }
  }

  /**
    A fetch from no entries and a total of 1: the first request is at offset
    0, every request is at the held count, the entries are the pages' items
    in order, and the run finishes exactly when the held count reaches the
    last reported total.
   */
  lemma PaginateFromStart(source: nat -> Page, budget: nat)
    ensures var r := Paginate(source, [], 1, budget);
      && (budget > 0 ==> |r.offsets| > 0 && r.offsets[0] == 0)
      && r.tracks == Collected(source, r.offsets)
      && (forall i :: 0 <= i < |r.offsets| ==> r.offsets[i] == |Collected(source, r.offsets[..i])|)
      && (forall i :: 0 <= i < |r.offsets| - 1 ==> r.offsets[i + 1] < source(r.offsets[i]).total)
      && (r.complete <==> |r.offsets| > 0 && |r.tracks| >= source(r.offsets[|r.offsets| - 1]).total)
      && (!r.complete ==> |r.offsets| == budget)
  {
    PaginateTracks(source, [], 1, budget);
    PaginateOffsets(source, [], 1, budget);
    PaginateStops(source, [], 1, budget);
    var r := Paginate(source, [], 1, budget);
    if budget > 0 {
      assert r.offsets[..0] == [];
    }
  }

  /**
    `get_albums`' fetching loop. Starting with no entries and a total of 1, so
    that the first request is always made, it requests pages at the held count
    until that count reaches the latest reported total. The request budget
    bounds the number of requests; the result says whether the loop finished.
   */
  method FetchAllTracks(source: nat -> Page, budget: nat) returns (tracks: seq<PlaylistTrack>, offsets: seq<nat>, complete: bool)
    ensures Fetched(tracks, offsets, complete) == Paginate(source, [], 1, budget)
  {
    tracks, offsets, complete := [], [], false;
    var total: nat := 1;
    var left := budget;
    while |tracks| < total && left > 0
      invariant var rest := Paginate(source, tracks, total, left);
        Paginate(source, [], 1, budget) == Fetched(rest.tracks, offsets + rest.offsets, rest.complete)
      decreases left
    {
      ResumeStep(source, Paginate(source, [], 1, budget), tracks, offsets, total, left);
      var page := source(|tracks|);
      offsets := offsets + [|tracks|];
      tracks := tracks + page.items;
      total := page.total;
      left := left - 1;
    }
    ResumeDone(source, Paginate(source, [], 1, budget), tracks, offsets, total, left);
    complete := |tracks| >= total;
  }

  /**
    One request of the loop: a run that, after the requests at `offsets`,
    holds `tracks` and goes on as `Paginate` still has the same outcome once
    the page at `|tracks|` is taken.
   */
  lemma ResumeStep(source: nat -> Page, run: Fetched, tracks: seq<PlaylistTrack>, offsets: seq<nat>, total: nat, left: nat)
    requires |tracks| < total && left > 0
    requires var rest := Paginate(source, tracks, total, left);
      run == Fetched(rest.tracks, offsets + rest.offsets, rest.complete)
    ensures var page := source(|tracks|);
      var rest := Paginate(source, tracks + page.items, page.total, left - 1);
      run == Fetched(rest.tracks, (offsets + [|tracks|]) + rest.offsets, rest.complete)
  {
    var page := source(|tracks|);
    var rest := Paginate(source, tracks + page.items, page.total, left - 1);
    assert offsets + ([|tracks|] + rest.offsets) == (offsets + [|tracks|]) + rest.offsets;
  }

  /** When the loop stops, the run's outcome is what it holds. */
  lemma ResumeDone(source: nat -> Page, run: Fetched, tracks: seq<PlaylistTrack>, offsets: seq<nat>, total: nat, left: nat)
    requires !(|tracks| < total && left > 0)
    requires var rest := Paginate(source, tracks, total, left);
      run == Fetched(rest.tracks, offsets + rest.offsets, rest.complete)
    ensures run == Fetched(tracks, offsets, |tracks| >= total)
  {
    assert offsets + [] == offsets;
  }

  /** A service answering from a fixed playlist `all`, `pageSize` entries per page. */
  function SnapshotPage(all: seq<PlaylistTrack>, pageSize: nat, offset: nat): Page {
    var lo := if offset <= |all| then offset else |all|;
    var hi := if lo + pageSize <= |all| then lo + pageSize else |all|;
    Page(all[lo..hi], |all|)
  }

  /** The number of pages of size `pageSize` that `n` entries need. */
  function PagesFor(n: nat, pageSize: nat): nat
    requires pageSize > 0
    decreases n
  {
    if n == 0 then 0 else if n <= pageSize then 1 else 1 + PagesFor(n - pageSize, pageSize)
  }

  /** `PagesFor` is the ceiling of `n / pageSize`. */
  lemma {:induction false} PagesForIsCeiling(n: nat, pageSize: nat)
    requires pageSize > 0
    ensures PagesFor(n, pageSize) * pageSize >= n
    ensures n > 0 ==> (PagesFor(n, pageSize) - 1) * pageSize < n
    decreases n
  {
    if n > pageSize {
      PagesForIsCeiling(n - pageSize, pageSize);
      var c := PagesFor(n - pageSize, pageSize);
      assert (c + 1) * pageSize == c * pageSize + pageSize;
      assert c * pageSize == (c - 1) * pageSize + pageSize;
    }
  }

  /** Requests the loop makes against a playlist of `n` entries: one even when it is empty. */
  function RequestCount(n: nat, pageSize: nat): nat
    requires pageSize > 0
  {
    if n == 0 then 1 else PagesFor(n, pageSize)
  }

  lemma {:induction false} SnapshotFrom(source: nat -> Page, all: seq<PlaylistTrack>, pageSize: nat, k: nat, budget: nat)
    requires pageSize > 0 && k <= |all|
    requires forall o :: source(o) == SnapshotPage(all, pageSize, o)
    requires budget >= PagesFor(|all| - k, pageSize)
    ensures Paginate(source, all[..k], |all|, budget)
            == Fetched(all, seq(PagesFor(|all| - k, pageSize), i => k + i * pageSize), true)
    decreases |all| - k
  {
    if k == |all| {
      assert all[..k] == all;
      assert seq(0, i => k + i * pageSize) == [];
    } else {
      var next := if k + pageSize <= |all| then k + pageSize else |all|;
      var page := source(k);
      assert page == Page(all[k..next], |all|);
      assert all[..k] + page.items == all[..next];
      SnapshotFrom(source, all, pageSize, next, budget - 1);
      var c := PagesFor(|all| - next, pageSize);
      assert PagesFor(|all| - k, pageSize) == c + 1;
      var tail := seq(c, i => next + i * pageSize);
      var whole := seq(c + 1, i => k + i * pageSize);
      if next == |all| {
        assert c == 0;
        assert whole == [k];
      } else {
        forall i | 0 < i < c + 1 ensures whole[i] == tail[i - 1] {
          assert k + i * pageSize == next + (i - 1) * pageSize;
        }
        assert whole == [k] + tail;
      }
    }
  }

  /**
    Against a fixed playlist, the loop collects exactly its entries, in order,
    with one request per page (one when the playlist is empty) at offsets
    0, pageSize, 2 * pageSize, ...
   */
  lemma SnapshotFetchesAll(source: nat -> Page, all: seq<PlaylistTrack>, pageSize: nat, budget: nat)
    requires pageSize > 0
    requires forall o :: source(o) == SnapshotPage(all, pageSize, o)
    requires budget >= RequestCount(|all|, pageSize)
    ensures Paginate(source, [], 1, budget)
            == Fetched(all, seq(RequestCount(|all|, pageSize), i => i * pageSize), true)
  {
    if |all| == 0 {
      assert all == [];
      assert source(0) == Page([], 0);
      assert seq(1, i => i * pageSize) == [0];
    } else {
      assert all[..0] == [];
      SnapshotFrom(source, all, pageSize, 0, budget);
      assert seq(PagesFor(|all|, pageSize), i => 0 + i * pageSize) == seq(PagesFor(|all|, pageSize), i => i * pageSize);
    }
  }
}
