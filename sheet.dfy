/**
  Reconciling the album list with the spreadsheet: which uris the sheet
  already records, which albums are still missing, and the rows written for
  them. A row is its cells as strings; the album's uri lives in column E
  (index 4).
 */
module Sheet {
  import opened Playlist

  type Row = seq<string>

  /** The formula written in column B of every new row; the spreadsheet evaluates it. */
  const OffsetFormula: string :=
    "=IF(ISBLANK(INDIRECT(\"A\" & ROW())), \"\", (-1*(DATEDIF(DATE(2017,1,1),INDIRECT(\"A\" & ROW()),\"D\")-(ROW()-2))))"

  /** A row records a uri when it has at least five cells and its fifth is not empty. */
  predicate RecordsUri(row: Row, uri: string) {
    |row| >= 5 && row[4] != "" && row[4] == uri
  }

  /** Some row of the sheet records `uri`. */
  predicate Recorded(rows: seq<Row>, uri: string) {
    exists r :: r in rows && RecordsUri(r, uri)
  }

  /** `sheet_uris`: the fifth cells of the rows that record a uri, in row order. */
  function SheetUris(rows: seq<Row>): (uris: seq<string>)
    ensures |uris| <= |rows|
    ensures forall u :: u in uris <==> Recorded(rows, u)
  {
    if |rows| == 0 then []
    else
      var rest := SheetUris(rows[1..]);
      RecordedByFirstOrRest(rows);
      if |rows[0]| >= 5 && rows[0][4] != "" then [rows[0][4]] + rest else rest
  }

  lemma RecordedByFirstOrRest(rows: seq<Row>)
    requires |rows| > 0
    ensures forall u :: Recorded(rows, u) <==> RecordsUri(rows[0], u) || Recorded(rows[1..], u)
  {
    assert forall r :: r in rows <==> r == rows[0] || r in rows[1..];
  }

  lemma SheetUrisAppend(rows: seq<Row>, more: seq<Row>, u: string)
    ensures u in SheetUris(rows + more) <==> u in SheetUris(rows) || u in SheetUris(more)
  {
    assert forall r :: r in rows + more <==> r in rows || r in more;
  }

  predicate IsSubsequence(sub: seq<Album>, s: seq<Album>)
    decreases |s|
  {
    if |sub| == 0 then true
    else if |s| == 0 then false
    else if sub[0] == s[0] then IsSubsequence(sub[1..], s[1..])
    else IsSubsequence(sub, s[1..])
  }

  /**
    `albums_to_add`: the albums whose uri the sheet does not record, in their
    order, each as often as it occurs in `albums`.
   */
  function AlbumsToAdd(albums: seq<Album>, uris: seq<string>): (added: seq<Album>)
    ensures |added| <= |albums|
    ensures forall i :: 0 <= i < |added| ==> added[i].uri !in uris
  {
    if |albums| == 0 then []
    else
      var rest := AlbumsToAdd(albums[1..], uris);
      if albums[0].uri in uris then rest else [albums[0]] + rest
  }

  /** The albums added keep their relative order. */
  lemma {:induction false} AlbumsToAddSubsequence(albums: seq<Album>, uris: seq<string>)
    ensures IsSubsequence(AlbumsToAdd(albums, uris), albums)
  {
    if |albums| > 0 {
      AlbumsToAddSubsequence(albums[1..], uris);
      var rest := AlbumsToAdd(albums[1..], uris);
      if albums[0].uri in uris {
        SubsequenceOfTail(rest, albums);
      } else {
        assert ([albums[0]] + rest)[1..] == rest;
      }
    }
  }

  /** A subsequence of the tail is a subsequence of the whole. */
  lemma SubsequenceOfTail(sub: seq<Album>, s: seq<Album>)
    requires |s| > 0 && IsSubsequence(sub, s[1..])
    ensures IsSubsequence(sub, s)
    decreases |s|, |sub|
  {
    if |sub| > 0 && sub[0] == s[0] {
      SubsequenceDropFirst(sub, s[1..]);
    }
  }

  lemma SubsequenceDropFirst(sub: seq<Album>, s: seq<Album>)
    requires |sub| > 0 && IsSubsequence(sub, s)
    ensures IsSubsequence(sub[1..], s)
    decreases |s|, |sub|
  {
    if |s| > 0 {
      if sub[0] != s[0] {
        SubsequenceDropFirst(sub, s[1..]);
      }
      SubsequenceOfTail(sub[1..], s);
    }
  }

  /** Each album whose uri is not listed is added as often as it occurs; no other album is. */
  lemma {:induction false} AlbumsToAddCounts(albums: seq<Album>, uris: seq<string>)
    ensures forall a :: multiset(AlbumsToAdd(albums, uris))[a] == if a.uri in uris then 0 else multiset(albums)[a]
  {
    if |albums| > 0 {
      AlbumsToAddCounts(albums[1..], uris);
      assert albums == [albums[0]] + albums[1..];
    }
  }

  /** Nothing is added exactly when every album's uri is listed. */
  lemma {:induction false} AlbumsToAddEmpty(albums: seq<Album>, uris: seq<string>)
    ensures AlbumsToAdd(albums, uris) == [] <==> forall a :: a in albums ==> a.uri in uris
  {
    if |albums| > 0 {
      AlbumsToAddEmpty(albums[1..], uris);
      assert forall a :: a in albums <==> a == albums[0] || a in albums[1..];
    }
  }

  /** The row written for an album: date, offset formula, name, artists, uri. */
  function MakeRow(a: Album): Row {
    [a.date, OffsetFormula, a.name, a.artists, a.uri]
  }

  /** `values`: one row per album, in the albums' order. */
  function BuildRows(albums: seq<Album>): (values: seq<Row>)
    ensures |values| == |albums|
    ensures forall i :: 0 <= i < |albums| ==> values[i] == MakeRow(albums[i])
  {
    if |albums| == 0 then [] else [MakeRow(albums[0])] + BuildRows(albums[1..])
  }

  /** Every row written has five cells, the same formula in column B, and its album's fields in the rest. */
  lemma BuildRowsLayout(albums: seq<Album>)
    ensures forall i :: 0 <= i < |albums| ==>
      var row := BuildRows(albums)[i];
      && |row| == 5 && row[1] == OffsetFormula
      && row[0] == albums[i].date && row[2] == albums[i].name
      && row[3] == albums[i].artists && row[4] == albums[i].uri
  {
  }

  /** A written row records its album's uri, unless that uri is empty. */
  lemma RowRecordsItsUri(a: Album, u: string)
    ensures RecordsUri(MakeRow(a), u) <==> a.uri != "" && u == a.uri
  {
  }

  /** `update_sheet`'s diff: the rows to append to a sheet holding `rows`. */
  function UpdateSheet(rows: seq<Row>, albums: seq<Album>): seq<Row> {
    BuildRows(AlbumsToAdd(albums, SheetUris(rows)))
  }

  /**
    What is appended: one row per album whose uri the sheet does not record,
    in the albums' order; nothing when the sheet already records every uri.
   */
  lemma UpdateSheetAppendsMissing(rows: seq<Row>, albums: seq<Album>)
    ensures var values := UpdateSheet(rows, albums);
      var added := AlbumsToAdd(albums, SheetUris(rows));
      && IsSubsequence(added, albums)
      && |values| == |added|
      && (forall i :: 0 <= i < |values| ==> values[i] == MakeRow(added[i]))
      && (forall i :: 0 <= i < |values| ==> forall r :: r in rows ==> !RecordsUri(r, values[i][4]))
      && (values == [] <==> forall a :: a in albums ==> Recorded(rows, a.uri))
  {
    var added := AlbumsToAdd(albums, SheetUris(rows));
    var values := UpdateSheet(rows, albums);
    AlbumsToAddSubsequence(albums, SheetUris(rows));
    AlbumsToAddEmpty(albums, SheetUris(rows));
    assert forall i :: 0 <= i < |values| ==> values[i][4] == added[i].uri;
  }

  /**
    A second run against a sheet that absorbed the first run's rows appends
    nothing, provided no album has an empty uri.
   */
  lemma RerunAppendsNothing(rows: seq<Row>, albums: seq<Album>)
    requires forall a :: a in albums ==> a.uri != ""
    ensures UpdateSheet(rows + UpdateSheet(rows, albums), albums) == []
  {
    var values := UpdateSheet(rows, albums);
    var added := AlbumsToAdd(albums, SheetUris(rows));
    AlbumsToAddCounts(albums, SheetUris(rows));
    AlbumsToAddEmpty(albums, SheetUris(rows + values));
    forall a | a in albums
      ensures a.uri in SheetUris(rows + values)
    {
      SheetUrisAppend(rows, values, a.uri);
      if a.uri !in SheetUris(rows) {
        assert multiset(added)[a] == multiset(albums)[a] > 0;
        var i :| 0 <= i < |added| && added[i] == a;
        assert RecordsUri(values[i], a.uri);
        assert values[i] in values;
      }
    }
  }

  /** An album with an empty uri is never recorded, so every run appends it again. */
  lemma EmptyUriIsAppendedAgain(rows: seq<Row>, a: Album)
    requires a.uri == ""
    ensures UpdateSheet(rows, [a]) == [MakeRow(a)]
    ensures UpdateSheet(rows + UpdateSheet(rows, [a]), [a]) == [MakeRow(a)]
  {
    assert "" !in SheetUris(rows);
    assert "" !in SheetUris(rows + UpdateSheet(rows, [a]));
  }
}
