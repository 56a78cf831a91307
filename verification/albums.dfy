/** Album selection in `main`: scan the fetched album page, remember the UID
    of every album whose title equals the requested one (the loop has no
    `break`, so the last such album wins), and create a new album when the
    remembered UID is falsy. */
module Albums {
  import opened Wrappers

  /** An entry of the `GET /api/v1/albums?count=300` listing. */
  datatype Album = Album(title: string, uid: string)

  /** What `main` does about the album: reuse an existing UID, or POST a new album. */
  datatype Choice = Use(uid: string) | Create(title: string, description: string)

  /** Python truthiness of a UID string: only the empty string is falsy. */
  predicate Truthy(uid: string)
  {
    uid != ""
  }

  /** The loop over `albums.json()`, starting from the current `album_id`. */
  function Scan(albums: seq<Album>, title: string, current: Option<string>): Option<string>
    decreases |albums|
  {
    if |albums| == 0 then current
    else if albums[0].title != title then Scan(albums[1..], title, current)
    else Scan(albums[1..], title, Some(albums[0].uid))
  }

  /** `album_id` after the loop, starting from `None`. */
  function Selected(albums: seq<Album>, title: string): Option<string>
  {
    Scan(albums, title, None)
  }

  /** Album `i` has the requested title and no later album has it. */
  predicate IsLastMatch(albums: seq<Album>, title: string, i: int)
  {
    && 0 <= i < |albums|
    && albums[i].title == title
    && forall j :: i < j < |albums| ==> albums[j].title != title
  }

  /** The loop keeps the UID of the last album with the requested title, and
      keeps its starting value when no album has that title. */
  lemma {:induction false} ScanFindsLastMatch(albums: seq<Album>, title: string, current: Option<string>)
    ensures (forall j :: 0 <= j < |albums| ==> albums[j].title != title) ==> Scan(albums, title, current) == current
    ensures forall i :: IsLastMatch(albums, title, i) ==> Scan(albums, title, current) == Some(albums[i].uid)
    decreases |albums|
  {
    if |albums| > 0 {
      var next := if albums[0].title != title then current else Some(albums[0].uid);
      ScanFindsLastMatch(albums[1..], title, next);
      forall i | IsLastMatch(albums, title, i) ensures Scan(albums, title, current) == Some(albums[i].uid) {
        if i > 0 {
          assert IsLastMatch(albums[1..], title, i - 1);
        } else {
          assert forall j :: 0 <= j < |albums[1..]| ==> albums[1..][j].title != title by {
            forall j | 0 <= j < |albums[1..]| ensures albums[1..][j].title != title {
              assert albums[1..][j] == albums[j + 1];
            }
          }
        }
      }
    }
  }

  /** The album selected by `main` is characterised by the last-match rule. */
  lemma SelectedIsLastMatch(albums: seq<Album>, title: string)
    ensures Selected(albums, title).None? <==> forall j :: 0 <= j < |albums| ==> albums[j].title != title
    ensures forall i :: IsLastMatch(albums, title, i) ==> Selected(albums, title) == Some(albums[i].uid)
    ensures Selected(albums, title).Some? ==>
      exists i :: IsLastMatch(albums, title, i) && Selected(albums, title).value == albums[i].uid
  {
    ScanFindsLastMatch(albums, title, None);
    if exists j :: 0 <= j < |albums| && albums[j].title == title {
      var i := LastMatchIndex(albums, title);
      assert IsLastMatch(albums, title, i);
    }
  }

  /** The index of the last album with the requested title, when there is one. */
  function LastMatchIndex(albums: seq<Album>, title: string): (i: int)
    requires exists j :: 0 <= j < |albums| && albums[j].title == title
    ensures IsLastMatch(albums, title, i)
    decreases |albums|
  {
    var n := |albums| - 1;
    if albums[n].title == title then n
    else
      assert exists j :: 0 <= j < |albums[..n]| && albums[..n][j].title == title by {
        var j :| 0 <= j < |albums| && albums[j].title == title;
        assert albums[..n][j] == albums[j];
      }
      var i := LastMatchIndex(albums[..n], title);
      assert albums[..n][i] == albums[i];
      i
  }

  /** The decision of `main` (lines after the listing succeeded): reuse a truthy
      selected UID, otherwise create an album titled as requested whose
      description is `str(keywords)`. */
  function Decide(albums: seq<Album>, title: string, keywordsArg: string): (c: Choice)
    ensures c.Use? ==> Truthy(c.uid)
    ensures c.Create? ==> c.title == title && c.description == keywordsArg
    ensures c.Use? <==> exists i :: IsLastMatch(albums, title, i) && Truthy(albums[i].uid)
    ensures forall i :: IsLastMatch(albums, title, i) && Truthy(albums[i].uid) ==> c == Use(albums[i].uid)
  {
    SelectedIsLastMatch(albums, title);
    match Selected(albums, title)
    case Some(uid) =>
      if Truthy(uid) then Use(uid) else Create(title, keywordsArg)
    case None => Create(title, keywordsArg)
  }

  /** The scan over a concatenated listing: the second part decides whenever it has a match. */
  lemma {:induction false} ScanAppend(a: seq<Album>, b: seq<Album>, title: string, current: Option<string>)
    ensures Scan(a + b, title, current) == Scan(b, title, Scan(a, title, current))
    decreases |a|
  {
    if |a| == 0 {
      assert a + b == b;
    } else {
      assert (a + b)[1..] == a[1..] + b;
      assert (a + b)[0] == a[0];
      ScanAppend(a[1..], b, title, if a[0].title != title then current else Some(a[0].uid));
    }
  }

  /** Albums with another title never affect the choice, wherever they sit in the listing. */
  lemma OtherTitlesIrrelevant(a: seq<Album>, b: seq<Album>, other: Album, title: string, keywordsArg: string)
    requires other.title != title
    ensures Decide(a + [other] + b, title, keywordsArg) == Decide(a + b, title, keywordsArg)
  {
    ScanAppend(a + [other], b, title, None);
    ScanAppend(a, [other], title, None);
    ScanAppend(a, b, title, None);
    assert [other][1..] == [];
  }

  /** Re-running after the album exists with a truthy UID at the end of the listing
      reuses it and creates nothing. */
  lemma RerunReusesAlbum(albums: seq<Album>, title: string, uid: string, keywordsArg: string)
    requires Truthy(uid)
    ensures Decide(albums + [Album(title, uid)], title, keywordsArg) == Use(uid)
  {
    assert IsLastMatch(albums + [Album(title, uid)], title, |albums|);
  }

  /** Two albums titled "Trip": the later one is reused, not the first. */
  lemma LaterDuplicateTitleWins(keywordsArg: string)
    ensures Decide([Album("Trip", "alb1"), Album("Trip", "alb2")], "Trip", keywordsArg) == Use("alb2")
  {
    assert IsLastMatch([Album("Trip", "alb1"), Album("Trip", "alb2")], "Trip", 1);
  }

  /** A later match with an empty UID overrides an earlier truthy one, so a new album is created. */
  lemma EmptyLastUidCreates(keywordsArg: string)
    ensures Decide([Album("Trip", "alb1"), Album("Trip", "")], "Trip", keywordsArg) == Create("Trip", keywordsArg)
  {
    assert IsLastMatch([Album("Trip", "alb1"), Album("Trip", "")], "Trip", 1);
  }
}
