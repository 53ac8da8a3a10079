# album-a-day: synchronisation core, modelled in Dafny

The program reads every entry of one "album a day" playlist from a music
streaming service. It keeps one album entry per album, built from the first
playlist entry that mentions that album, and sorts those entries by their
`MM/DD/YYYY` date string. It then appends to a spreadsheet a row for each
album whose uri the sheet does not yet record.

This project models that core and proves its properties:

- `wrappers.dfy`: `Option`.
- `text.dfy` (`Text`): the `", "` join, its inverse split, Python's string order, and zero-padded decimals.
- `dates.dfy` (`Dates`): parsed dates, their `strftime('%m/%d/%Y')` rendering and its inverse, and the order the rendering sorts in.
- `playlist.dfy` (`Playlist`): the service's records as typed values, the album entry built from a playlist entry, and `track_string`.
- `pagination.dfy` (`Pagination`): the page-by-page fetching loop.
- `aggregation.dfy` (`Aggregation`): the first-wins grouping loop over an insertion-ordered dictionary.
- `sorting.dfy` (`Sorting`): the stable sort by date string.
- `albums.dfy` (`Albums`): `get_albums` end to end.
- `sheet.dfy` (`Sheet`): the sheet diff and the rows appended.

The streaming service is a function from the requested offset to the page
it answers with (`nat -> Page`). The sheet's current rows are an input. The
rows to append are the output.

Two properties of the code are worth stating up front:

- An album's date is taken from its first entry in fetch order, which need
  not be the earliest `added_at` among its entries.
- Albums sort by the `MM/DD/YYYY` string. `Dates.DateKeyOrder` proves that
  this orders by month, then day, then year, and `Dates.KeyIsNotChronological`
  gives two dates across a year boundary that sort against time.

## Model

| member | source | states |
|---|---|---|
| `Text.SplitJoin` | src/main.py:155 | Splitting the `", "`-joined list at `", "` gives back the parts, if there is at least one part and no part contains a comma. So the join keeps every name, in order. |
| `Text.Join` | src/main.py:155 | `sep.join(parts)`: empty for no parts, the part itself for one, and always starting with the first part. `Text.SplitJoin` proves it loses no part and keeps their order. |
| `Text.LexLess` | src/main.py:163 | Python's `<` on strings, which `sorted` compares keys with: code-point order, a proper prefix first. `Text.LexLessIrreflexive`, `Text.LexLessTransitive` and `Text.LexLessTotal` prove it is a strict total order, and `Text.LexLessConcat` how it splits over equal-length prefixes. |
| `Text.ZeroPadOrder` | src/main.py:153 | For zero-padded numbers of the same width, string order equals numeric order. |
| `Dates.FormatDate` | src/main.py:153 | The rendering has ten characters, `/` at positions 2 and 5, and decimal digits in the month, day and year fields. |
| `Dates.FormatThenParse` | src/main.py:153 | Parsing the rendering of a date gives that date back. |
| `Dates.ParseThenFormat` | src/main.py:153 | Every string that parses is exactly the rendering of the date it parses to. |
| `Dates.DateKeyOrder` | src/main.py:153-163 | One rendering sorts before another exactly when its date comes first by month, then day, then year. |
| `Dates.SameYearKeyIsChronological` | src/main.py:163 | Within one year, the sort key's order is chronological order. |
| `Dates.KeyIsNotChronological` | src/main.py:163 | 12/01/2017 comes before 02/01/2018 in time, but its rendering sorts after it. |
| `Playlist.Names` | src/main.py:155 | The artist names, one per artist, in the service's order. |
| `Playlist.AlbumOf` | src/main.py:152-157 | The dictionary value built from an entry: rendered date, album name, `", "`-joined album artist names, album uri. `Playlist.AlbumOfFields` states what each field holds. |
| `Playlist.AlbumOfFields` | src/main.py:146-157 | An album entry's date parses back to the entry's added date. Its name and uri are the album's. Its artists field splits back into the album's artist names, in order, when there is at least one artist and no name contains a comma. |
| `Playlist.TrackString` | src/main.py:53-62 | `track_string`: the track name, `" - "`, then the joined artist names. `Playlist.TrackStringParts` states its layout. |
| `Playlist.TrackStringParts` | src/main.py:53-62 | The track string is the track name, then `" - "`, then text that splits back into the artist names in order. With no artists, nothing follows `" - "`. |
| `Pagination.Paginate` | src/main.py:135-141 | The fetching loop as a function of the held entries, the latest total and the request budget. `Pagination.PaginateTracks`, `Pagination.PaginateOffsets`, `Pagination.PaginateStops`, `Pagination.PaginateFromStart` and `Pagination.SnapshotFetchesAll` carry its properties, and `Pagination.FetchAllTracks` is proved equal to it. |
| `Pagination.PaginateTracks` | src/main.py:138-141 | The collected entries are the entries already held, then each requested page's items, in request order. |
| `Pagination.PaginateOffsets` | src/main.py:138-140 | Each request's offset equals the number of entries held when the request is made. |
| `Pagination.PaginateStops` | src/main.py:136-141 | A request is made only while fewer entries are held than the latest reported total. Each later request follows a page whose total the held count had not reached. A run is complete exactly when the held count reached the last page's total. An incomplete run used its whole request budget. |
| `Pagination.FetchAllTracks` | src/main.py:135-141 | The loop's entries, request offsets and finished flag are exactly those of `Paginate` started from no entries and a total of 1. |
| `Pagination.PaginateFromStart` | src/main.py:135-141 | Started from no entries and a total of 1, the first request is always made, at offset 0. Every request is at the held count. The entries are the pages' items in order. The loop continues only below the latest total, and it finishes exactly when the held count reaches that total. An unfinished run used its whole budget. |
| `Pagination.PagesForIsCeiling` | src/main.py:138-141 | `PagesFor(n, size)` is the ceiling of `n / size`. |
| `Pagination.SnapshotFetchesAll` | src/main.py:135-141 | Against a fixed playlist served in pages of `size`, the loop collects exactly the playlist's entries, in order. It makes ceil(n / size) requests, or one request when the playlist is empty, at offsets 0, size, 2*size, and so on. |
| `Aggregation.FirstIndex` | src/main.py:145-151 | The position of the first entry whose album id is `id`. It is below the length exactly when some entry has that id. |
| `Aggregation.FirstKeys` | src/main.py:143-157 | The dictionary's keys in insertion order. `Aggregation.FirstKeysMembers`, `Aggregation.FirstKeysDistinct`, `Aggregation.FirstKeysOrdered` and `Aggregation.FirstKeysGrow` carry its properties, and `Aggregation.AggregateAlbums` is proved to build it. |
| `Aggregation.FirstKeysMembers` | src/main.py:143-157 | The dictionary's keys are exactly the album ids the entries mention. |
| `Aggregation.FirstKeysDistinct` | src/main.py:151-157 | No album id is a key twice. |
| `Aggregation.FirstKeysOrdered` | src/main.py:143-157 | The keys are ordered by the position of the first entry mentioning them. |
| `Aggregation.FirstIndexAtNew` | src/main.py:151-157 | An entry whose album no earlier entry mentions is that album's first mention. |
| `Aggregation.FirstKeysGrow` | src/main.py:151-157 | Processing a further entry never removes or reorders earlier keys. |
| `Aggregation.FirstWins` | src/main.py:151-157 | Entries added later never change the value kept for an album already seen. |
| `Aggregation.FirstAlbums` | src/main.py:163 | The dictionary's values in insertion order: one per key, each built from the first entry mentioning that album. |
| `Aggregation.ValuesAt` | src/main.py:163 | The values stored under the given keys, in key order. |
| `Aggregation.GroupedKnown` | src/main.py:151 | An entry whose album id is already a key leaves the dictionary and its key order unchanged, and the loop state stays consistent. |
| `Aggregation.GroupedNew` | src/main.py:151-157 | An entry with a new album id adds that id as the last key, with the album entry built from this entry. |
| `Aggregation.GroupedAll` | src/main.py:143-157 | After all entries, the dictionary's keys are the mentioned ids, each value comes from its first mention, and the key order is `FirstKeys`. |
| `Aggregation.ValuesInInsertionOrder` | src/main.py:163 | Reading the loop's dictionary in insertion order gives `FirstAlbums`. |
| `Aggregation.AggregateAlbums` | src/main.py:143-157 | The loop's dictionary has exactly the mentioned album ids as keys. Each value is built from the first entry mentioning that id. The insertion order is the order of first mention, with no key repeated. |
| `Sorting.SortByDate` | src/main.py:163 | `sorted(values, key=date)` as a stable insertion sort. `Sorting.SortByDatePermutes`, `Sorting.SortByDateSorted`, `Sorting.SortByDateStable` and `Sorting.SortedStableIsUnique` carry its properties. |
| `Sorting.SortByDatePermutes` | src/main.py:163 | The sorted list has the same entries, each as often as before. |
| `Sorting.SortByDateSorted` | src/main.py:163 | The sorted list is ascending by date string, in Python's string order. |
| `Sorting.SortByDateStable` | src/main.py:163 | For every date string, the entries with that date keep their relative order. |
| `Sorting.SortedStableIsUnique` | src/main.py:163 | Any list that is ascending by date and keeps each date's entries in their input order equals `SortByDate`. So the model agrees with any stable sort, including Python's `sorted`. |
| `Albums.AlbumList` | src/main.py:143-163 | The list `get_albums` returns for the fetched entries: the first-mention album entries sorted by date string. `Albums.AlbumListCount`, `Albums.AlbumListSound`, `Albums.AlbumListComplete` and `Albums.AlbumListOrder` carry its properties. |
| `Albums.AlbumListCount` | src/main.py:143-163 | The returned list has one entry per distinct album id. |
| `Albums.AlbumListSound` | src/main.py:143-163 | Every entry of the returned list is the one built from the first mention of some album. |
| `Albums.AlbumListComplete` | src/main.py:143-163 | Every mentioned album's entry is in the returned list. |
| `Albums.AlbumListOrder` | src/main.py:143-163 | The returned list is ascending by date string and is a reordering of the dictionary's values. Entries with equal date strings keep the order in which their albums first appeared. |
| `Albums.GetAlbums` | src/main.py:126-169 | When fetching finishes, the result is the sorted first-occurrence album list of the fetched entries. When the request budget runs out first, the result is `None`. |
| `Sheet.RecordsUri` | src/main.py:188 | A row records a uri when it has at least five cells and its index-4 cell is that uri and not empty. `Sheet.SheetUris` and `Sheet.RowRecordsItsUri` use it. |
| `Sheet.SheetUris` | src/main.py:185-188 | A uri is in the list exactly when some row has at least five cells with that uri, non-empty, at index 4. |
| `Sheet.SheetUrisAppend` | src/main.py:188 | The uris of two row lists joined are the uris of either list. |
| `Sheet.AlbumsToAdd` | src/main.py:190 | No album in the result has a listed uri, and the result is no longer than the album list. |
| `Sheet.AlbumsToAddSubsequence` | src/main.py:190 | The result keeps the albums' order, as a subsequence. |
| `Sheet.AlbumsToAddCounts` | src/main.py:190 | The result holds each album whose uri is not listed, as often as it occurs in the album list, and nothing else. |
| `Sheet.AlbumsToAddEmpty` | src/main.py:190 | The result is empty exactly when every album's uri is listed. |
| `Sheet.MakeRow` | src/main.py:194-195 | The five cells written for an album: date, the fixed offset formula, name, artists, uri. `Sheet.BuildRowsLayout` and `Sheet.RowRecordsItsUri` carry its properties. |
| `Sheet.BuildRows` | src/main.py:195 | One row per album to add, in the same order. |
| `Sheet.BuildRowsLayout` | src/main.py:194-195 | Every row has five cells: date, the same fixed offset formula, name, artists, uri. |
| `Sheet.RowRecordsItsUri` | src/main.py:188-195 | A written row counts as recording exactly its album's uri, unless that uri is empty. |
| `Sheet.UpdateSheet` | src/main.py:185-195 | The rows `update_sheet` appends to a sheet holding the given rows. `Sheet.UpdateSheetAppendsMissing`, `Sheet.RerunAppendsNothing` and `Sheet.EmptyUriIsAppendedAgain` carry its properties. |
| `Sheet.UpdateSheetAppendsMissing` | src/main.py:185-195 | The rows appended are one per album whose uri no existing row records, in album order. None of them repeats a recorded uri. Nothing is appended exactly when every album's uri is already recorded. |
| `Sheet.RerunAppendsNothing` | src/main.py:185-195 | When no album has an empty uri, a second run against a sheet that absorbed the first run's rows appends nothing. |
| `Sheet.EmptyUriIsAppendedAgain` | src/main.py:188-190 | An album with an empty uri is never recorded, so every run appends it again. |

## Left out

- `authenticate_client` and `authenticate_user` (src/main.py:71-119) are not modelled. They handle OAuth, interactive input, environment variables and process exit.
- The streaming-service and spreadsheet client calls (src/main.py:139, 173-206) are not modelled. The playlist service is a function from offset to page. The sheet's rows are an input. The rows to append are the output. The spreadsheet's own append, and its re-reading of values entered as if typed by a user, happen on the remote service. `Sheet.RerunAppendsNothing` assumes the uris come back unchanged.
- `dateutil.parser.parse` (src/main.py:146) is not modelled. `added_at` is taken as an already-parsed calendar date.
- `Pagination.FetchAllTracks`: Python's loop never ends if the service keeps reporting a total the collected entries do not reach. The model stops after a request budget and reports the run as incomplete. `Albums.GetAlbums` then returns `None`.
- `Dates.FormatDate`: renders every year as four zero-padded digits, as Python documents for `%Y`. Some C libraries print years below 1000 without padding.
- Missing or null fields in the service's answers are not modelled; the records here are typed, so every field is present. In the source they behave differently per field. A missing `track` or `album` defaults to `{}` (src/main.py:147-148), but a `track` that is present and null raises `AttributeError`. A missing album id puts every such entry under the one key `None` (src/main.py:149-151). A missing `total` makes `len(tracks) < total` raise `TypeError` (src/main.py:138-141). A missing `added_at` makes the date parser raise (src/main.py:146). A missing artist `name` makes `', '.join` raise (src/main.py:155). Missing `items` or `artists` default to `[]`, and other missing fields become `None`.
- Any failed request ends the whole run. The model has no partial-failure states.
- `print_header`, the debug `print` and the module constants and `main` wiring (src/main.py:13-50, 191, 209-210) are not modelled. The owner, playlist and sheet identifiers are fixed inside the page source and the rows given.
- Python's `sorted` (Timsort) is modelled by a stable insertion sort. `Sorting.SortedStableIsUnique` shows that every stable sort gives the same result.
