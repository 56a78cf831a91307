# photoprism_query — a Dafny model

`main.py` fills a PhotoPrism album with every photo that carries all of a
set of keywords and none of another. It lists the albums over HTTP. It then
reuses the album with the requested title or creates one. It resolves the
comma-separated include and exclude keyword lists to ids in the `keywords`
table. It runs one SQL query over `photos_keywords` and `photos`. Last, it
posts the UIDs it found into the album.

This project models the pure logic of that script, with the server and the
database reduced to their answers:

- `PySplit` (split.dfy): Python's `str.split(',')`, with its inverse `Join`.
- `Keywords` (keywords.dfy): `keyword_exists` and `get_keyword_ids`.
  `FetchOne` models the lookup over the `keywords` rows. On a table whose
  keyword column is unique it agrees with a `map<string, int>`, and
  resolution uses that map. An unknown token is a `KeywordNotFound` failure.
- `QueryText` (query_text.dfy): the search statement as a template of SQL
  text and `%s` markers. The placeholder lists are built like
  `', '.join(['%s'] * n)`. The argument tuple is bound the way pymysql's
  `%` formatting does it, where a count mismatch is a `TypeError`.
- `PhotoSearch` (search.dfy): the meaning of the query. `photos_keywords` is
  a `set<(int, int)>` and `photos` is a `map<int, string>`. The definition
  follows the SQL clause by clause: the `WHERE` filter with `NOT EXISTS`,
  then `GROUP BY`, then `HAVING COUNT(DISTINCT ...) = len(inc)`, then the
  outer `id IN (...)`. Lemmas characterise it as "has every included
  keyword, has no excluded keyword".
- `Albums` (albums.dfy): the album loop. It has no `break`, so it keeps the
  last album with the requested title. A new album is created when the kept
  UID is falsy.
- `Sync` (sync.dfy): `main` as a pure function. Its inputs are the
  arguments, the server's answers and the database. It returns the requests
  made, in order, and the outcome.

Edge cases the model makes explicit:

- An include list with a repeated id finds nothing. `COUNT(DISTINCT ...)`
  can never reach the list's length.
- `IN ()` is a MySQL syntax error. `SearchPhotos` fails on an empty list.
  `Main` never reaches that failure, because a successful resolution always
  has at least one id.
- Two behaviours of the code a reader may not expect. (1) The last album
  with the requested title wins, because the loop has no `break`. A later
  match with an empty UID overrides an earlier truthy one, and then an
  album is created. (2) Tokens are looked up exactly as split, with no
  trimming.

## Model

| member | source | states |
|---|---|---|
| PySplit.Split | main.py:69 | splitting yields one token more than there are commas, so never zero tokens, and no token contains a comma |
| PySplit.JoinSplit | main.py:69 | joining the tokens with commas gives back the original argument, so splitting loses and trims nothing |
| PySplit.SplitJoin | main.py:69 | splitting the comma-join of comma-free tokens gives those tokens back |
| PySplit.SingleTokenIffNoComma | main.py:69 | the argument yields exactly one token iff it contains no comma |
| Keywords.FetchOne | main.py:24-32 | the lookup returns an id iff some row's keyword equals the keyword exactly; the id is that of the first such row in the order the rows are returned |
| Keywords.FetchOneAgreesWithTable | main.py:24-32 | when the keyword column is unique, so the rows are described by a keyword-to-id map, the lookup over the rows equals the map lookup that resolution uses |
| Keywords.FetchOneTakesFirstRow | main.py:28-29 | with two rows for one keyword, ids 4 and then 8, the lookup returns 4 |
| Keywords.ResolveTokens | main.py:67-74 | succeeds iff every token is in the table, then yields one id per token in token order; on failure it names a token missing from the table, and every token before it is known |
| Keywords.Resolve | main.py:67-74 | resolving an argument gives at least one id, one per comma-separated token, in order; on failure the reported keyword is one of the tokens and is missing from the table |
| Keywords.Consulted | main.py:69-72 | the keywords queried are a prefix of the tokens: all of them when all are known, otherwise up to and including the first unknown one |
| Keywords.FailureReportsFirstUnknown | main.py:69-72 | a failed resolution reports the first unknown token, which is the last keyword queried |
| QueryText.Bind | main.py:58 | `%` binding succeeds iff the marker count equals the argument count; otherwise it fails with "not enough arguments" exactly when markers outnumber arguments; on success the bound statement has one piece per template piece |
| QueryText.BindValues | main.py:58 | the values in a bound statement, read left to right, are exactly the arguments in tuple order |
| QueryText.BindKeepsText | main.py:58 | binding keeps every piece of SQL text in place, word for word, and puts a value at every marker |
| QueryText.Placeholders | main.py:40-41 | the placeholder list for n ids has exactly n markers and is empty iff n is 0 |
| QueryText.BindPlaceholders | main.py:40-58 | binding ids into their placeholder list puts each id into its own slot, in order |
| QueryText.SearchBindingAgrees | main.py:40-58 | the search statement has one marker per include id, one per exclude id and one more, as many as the argument tuple has values; binding cannot fail; the include ids fill the first `IN` list, the exclude ids fill the second, and the include count fills the `HAVING` value |
| PhotoSearch.Search | main.py:44-56 | the result has only ids that have a `photos` row, each at most once, each mapped to that row's uid |
| PhotoSearch.SearchPhotos | main.py:34-65 | the database accepts the statement iff both id lists are non-empty, and the rows returned are then the search result |
| PhotoSearch.WhereRowsOfPhoto | main.py:47-52 | after the `WHERE` filter, a photo keeps exactly its included keywords when it has no excluded keyword row, and no rows otherwise |
| PhotoSearch.SearchMembership | main.py:44-58 | a photo is found iff it has a `photos` row and some included keyword, its number of distinct included keywords equals the include list's length, and it has no excluded keyword |
| PhotoSearch.SearchIncludesAllExcludesNone | main.py:44-58 | for a non-empty include list without repeats, a photo is found iff it has a `photos` row, carries every included keyword and carries no excluded keyword |
| PhotoSearch.DuplicateIncludeFindsNothing | main.py:54-58 | an include list with a repeated id finds no photo at all |
| PhotoSearch.ElemsCardinality | main.py:54-58 | a list has at most as many distinct ids as elements, and exactly as many iff it has no repeat; this is why the `HAVING` count against `len(inc)` works only for repeat-free lists |
| PhotoSearch.IncludeFiveSevenExcludeNine | main.py:44-58 | with photo 101 tagged {5,7}, photo 102 tagged {5,7,9} and photo 103 tagged {5}, including [5,7] and excluding [9] finds photo 101 only |
| Albums.ScanFindsLastMatch | main.py:91-94 | the loop ends holding the UID of the last album with the requested title, and keeps its starting value when no album has that title |
| Albums.SelectedIsLastMatch | main.py:85-94 | the selected UID is absent iff no album has the title; otherwise it is the UID of the last album with that title |
| Albums.Decide | main.py:91-97 | the album is reused iff the last album with the title has a truthy UID, and then that UID is used; otherwise an album is created with the requested title and the keywords argument as its description |
| Albums.ScanAppend | main.py:91-94 | scanning a concatenated listing equals scanning the second part, starting from the first part's result |
| Albums.OtherTitlesIrrelevant | main.py:91-97 | inserting an album with another title anywhere in the listing does not change the decision |
| Albums.RerunReusesAlbum | main.py:91-97 | once an album with the title and a truthy UID is last in the listing, a rerun reuses it and creates nothing |
| Albums.LaterDuplicateTitleWins | main.py:91-94 | of two albums titled "Trip", the later one is reused |
| Albums.EmptyLastUidCreates | main.py:91-97 | a later "Trip" album with an empty UID hides an earlier truthy one, so a new album is created |
| Sync.Main | main.py:76-113 | the run lists albums first; a failed listing ends it with only that request; the query never fails; a missing keyword is absent from the table; at most one album is created, exactly when the listing succeeded and no reusable album exists; at most one push is made, exactly when photos were added or the push failed; the outcome follows the push status |
| Sync.AlbumStep | main.py:87-97 | the album requests start with the listing and include one creation exactly when no album is reused |
| Sync.AfterAlbum | main.py:100-113 | after the album step nothing is created; a missing keyword is absent from the table; the query never fails; at most one push is made, exactly when photos were added or the push failed |
| Sync.SearchAndPush | main.py:103-113 | after the search there is at most one push, exactly when the outcome is "added" or "push failed"; the query fails only for an empty id list; the outcome follows the push status |
| Sync.PushIffPhotosFound | main.py:101-113 | a push happens iff the listing succeeded, both keyword lists resolved and the search is non-empty; the push is the last request, targets the chosen or created album, and carries exactly the search result |
| Sync.RepeatedIncludeFindsNothing | main.py:101-113 | when the include ids contain a repeat, the run ends with "no photos found" and never pushes |
| Sync.UnknownKeywordReported | main.py:95-102 | the run fails on a keyword iff some include or exclude token is unknown; it names the first unknown include token, or else the first unknown exclude token; the album step has already happened, so a created album stays |

## Left out

- HTTP requests (`get_albums`, `login`, album creation, photo push) are network I/O. The model sees only their answers: the listing status and page, the UID in the creation response, and the push status. `login` is never called by `main`.
- Album creation: its response status is not checked by the code. A creation response without `UID` raises `KeyError`; the model always takes a UID from the response.
- The album page: the listing holds whatever page (`count=300`) the server returned. Albums beyond it are invisible to the code and to the model.
- pymysql: connection handling, cursors and the `.decode()` of byte UIDs are foreign library plumbing. The tables are pure relations.
- Keywords.FetchOne: compares keywords exactly. MySQL compares under the column's collation, which is usually case- and accent-insensitive; PAD SPACE collations also ignore trailing spaces. Such comparisons are not modelled.
- PhotoSearch.Search: the rows come back in an unspecified order. The result is a map from photo id to uid, so the order of the posted JSON list is not modelled.
- QueryText.Bind: does not model value escaping. It does not check that the SQL text holds no other `%`, which holds for the statement's literal text.
- Environment configuration, `argparse`, printing and exit codes are process I/O. The outcome datatype stands in for the messages and exits.
- Missing arguments are not modelled; arguments are strings. Each missing argument is `None`, with these effects:
  - A missing `--album` matches no title. An album is then created with a null title, and the run continues.
  - A missing `--keywords` first creates an album whose description is `"None"` (unless one is reused). The `.split` in `get_keyword_ids` then raises.
  - A missing `--exclude` raises in the same `.split` after the include keywords are resolved.
