/** The meaning of the photo search of `search_photos`: the photo ids whose
    keyword rows survive the `WHERE` filter, grouped by photo, with as many
    distinct included keyword ids as the include list is long, mapped to
    their uids through the `photos` table. */
module PhotoSearch {
  import opened Wrappers
  import opened QueryText

  /** A `photos_keywords` row: (photo_id, keyword_id). */
  type Row = (int, int)

  /** The two tables the search reads. */
  datatype Tables = Tables(photos: map<int, string>, photoKeywords: set<Row>)

  /** Why the database refuses the statement: `IN ()` with an empty list is a syntax error. */
  datatype QueryError = EmptyInList | Format(e: FormatError)

  /** The distinct values of a list. */
  function Elems(s: seq<int>): set<int>
  {
    set x | x in s
  }

  /** True iff no value occurs twice in `s`. */
  predicate Distinct(s: seq<int>)
  {
    forall i, j :: 0 <= i < j < |s| ==> s[i] != s[j]
  }

  /** The keyword ids that `rows` attach to photo `p`. */
  function KeywordsOf(rows: set<Row>, p: int): set<int>
  {
    set r | r in rows && r.0 == p :: r.1
  }

  /** `NOT EXISTS (SELECT 1 FROM photos_keywords pk2 WHERE pk2.photo_id = p AND pk2.keyword_id IN (exc))`. */
  predicate NoExcludedRow(pk: set<Row>, p: int, exc: seq<int>)
  {
    forall r :: r in pk && r.0 == p ==> r.1 !in exc
  }

  /** The rows that pass the outer `WHERE`: an included keyword, and no excluded row for the photo. */
  function WhereRows(pk: set<Row>, inc: seq<int>, exc: seq<int>): set<Row>
  {
    set r | r in pk && r.1 in inc && NoExcludedRow(pk, r.0, exc)
  }

  /** `GROUP BY pk.photo_id`: the photo ids that have at least one surviving row. */
  function Groups(rows: set<Row>): set<int>
  {
    set r | r in rows :: r.0
  }

  /** The inner query: `SELECT DISTINCT pk.photo_id ... HAVING COUNT(DISTINCT pk.keyword_id) = len(inc)`. */
  function MatchingIds(pk: set<Row>, inc: seq<int>, exc: seq<int>): set<int>
  {
    var w := WhereRows(pk, inc, exc);
    set p | p in Groups(w) && |KeywordsOf(w, p)| == |inc|
  }

  /** The outer query `SELECT photo_uid FROM photos WHERE id IN (...)`: one uid
      per `photos` row whose id matched, keyed by that id. */
  function Search(db: Tables, inc: seq<int>, exc: seq<int>): (r: map<int, string>)
    ensures r.Keys <= db.photos.Keys
    ensures forall id :: id in r ==> r[id] == db.photos[id]
  {
    var m := MatchingIds(db.photoKeywords, inc, exc);
    map id | id in db.photos && id in m :: db.photos[id]
  }

  /** `search_photos`: bind the statement, let the database reject an empty `IN` list, evaluate. */
  function SearchPhotos(db: Tables, inc: seq<int>, exc: seq<int>): (r: Result<map<int, string>, QueryError>)
    ensures r.Success? <==> |inc| > 0 && |exc| > 0
    ensures r.Success? ==> r.value == Search(db, inc, exc)
  {
    SearchBindingAgrees(inc, exc);
    match Bind(SearchTemplate(|inc|, |exc|), SearchArgs(inc, exc))
    case Failure(e) => Failure(Format(e))
    case Success(_) =>
      if |inc| == 0 || |exc| == 0 then Failure(EmptyInList)
      else Success(Search(db, inc, exc))
  }

  /** The filtered rows of a photo are all its included keywords when it has no excluded row, and none otherwise. */
  lemma WhereRowsOfPhoto(pk: set<Row>, inc: seq<int>, exc: seq<int>, p: int)
    ensures KeywordsOf(WhereRows(pk, inc, exc), p) ==
      if NoExcludedRow(pk, p, exc) then KeywordsOf(pk, p) * Elems(inc) else {}
  {
    var w := WhereRows(pk, inc, exc);
    if NoExcludedRow(pk, p, exc) {
      forall k | k in KeywordsOf(pk, p) * Elems(inc) ensures k in KeywordsOf(w, p) {
        var r :| r in pk && r.0 == p && r.1 == k;
        assert r in w;
      }
    } else {
      assert forall r :: r in w ==> NoExcludedRow(pk, r.0, exc);
      assert forall r :: r in w ==> r.0 != p;
    }
  }

  lemma InGroupsIffKeywords(rows: set<Row>, p: int)
    ensures p in Groups(rows) <==> KeywordsOf(rows, p) != {}
  {
    if p in Groups(rows) {
      var r :| r in rows && r.0 == p;
      assert r.1 in KeywordsOf(rows, p);
    }
    if p !in Groups(rows) {
      assert forall r :: r in rows ==> r.0 != p;
    }
  }

  /** A photo id is in the search result iff it has a `photos` row, some
      included keyword, as many distinct included keywords as the include
      list is long, and no excluded keyword. */
  lemma SearchMembership(db: Tables, inc: seq<int>, exc: seq<int>, p: int)
    ensures p in Search(db, inc, exc) <==>
      && p in db.photos
      && KeywordsOf(db.photoKeywords, p) * Elems(inc) != {}
      && |KeywordsOf(db.photoKeywords, p) * Elems(inc)| == |inc|
      && KeywordsOf(db.photoKeywords, p) !! Elems(exc)
  {
    var pk := db.photoKeywords;
    var w := WhereRows(pk, inc, exc);
    WhereRowsOfPhoto(pk, inc, exc, p);
    InGroupsIffKeywords(w, p);
    if NoExcludedRow(pk, p, exc) {
      assert KeywordsOf(pk, p) !! Elems(exc) by {
        forall k | k in KeywordsOf(pk, p) ensures k !in Elems(exc) {
          var r :| r in pk && r.0 == p && r.1 == k;
        }
      }
    } else {
      var r :| r in pk && r.0 == p && r.1 in exc;
      assert r.1 in KeywordsOf(pk, p) * Elems(exc);
    }
  }

  /** A list has at most as many distinct values as elements, exactly as many iff it has no repetition. */
  lemma {:induction false} ElemsCardinality(s: seq<int>)
    ensures |Elems(s)| <= |s|
    ensures |Elems(s)| == |s| <==> Distinct(s)
    decreases |s|
  {
    if |s| > 0 {
      var t := s[1..];
      ElemsCardinality(t);
      ElemsCons(s);
      DistinctCons(s);
      if s[0] in t {
        assert Elems(s) == Elems(t);
      } else {
        assert |Elems(s)| == |Elems(t)| + 1;
      }
    }
  }

  lemma ElemsCons(s: seq<int>)
    requires |s| > 0
    ensures Elems(s) == {s[0]} + Elems(s[1..])
  {
    assert s == [s[0]] + s[1..];
  }

  /** A non-empty list is repetition-free iff its head does not recur and its tail is repetition-free. */
  lemma DistinctCons(s: seq<int>)
    requires |s| > 0
    ensures Distinct(s) <==> s[0] !in s[1..] && Distinct(s[1..])
  {
    var t := s[1..];
    if s[0] in t {
      var j :| 0 <= j < |t| && t[j] == s[0];
      assert s[0] == s[j + 1];
    } else if Distinct(t) {
      forall i, j | 0 <= i < j < |s| ensures s[i] != s[j] {
        if i == 0 {
          assert s[j] == t[j - 1];
        } else {
          assert s[i] == t[i - 1] && s[j] == t[j - 1];
        }
      }
    } else {
      var i, j :| 0 <= i < j < |t| && t[i] == t[j];
      assert s[i + 1] == s[j + 1];
    }
  }

  lemma SubsetCardinality(a: set<int>, b: set<int>)
    requires a <= b
    ensures |a| <= |b|
  {
    assert b == a + (b - a);
  }

  lemma SubsetOfEqualSize(a: set<int>, b: set<int>)
    requires a <= b
    requires |a| == |b|
    ensures a == b
  {
    assert |b - a| == |b| - |a|;
  }

  /** With a repetition-free, non-empty include list, a photo is found iff it
      has a `photos` row, carries every included keyword and carries no excluded keyword. */
  lemma SearchIncludesAllExcludesNone(db: Tables, inc: seq<int>, exc: seq<int>, p: int)
    requires |inc| > 0
    requires Distinct(inc)
    ensures p in Search(db, inc, exc) <==>
      && p in db.photos
      && Elems(inc) <= KeywordsOf(db.photoKeywords, p)
      && KeywordsOf(db.photoKeywords, p) !! Elems(exc)
  {
    var kw := KeywordsOf(db.photoKeywords, p);
    SearchMembership(db, inc, exc, p);
    ElemsCardinality(inc);
    assert inc[0] in Elems(inc);
    if |kw * Elems(inc)| == |inc| {
      SubsetOfEqualSize(kw * Elems(inc), Elems(inc));
    }
    if Elems(inc) <= kw {
      assert kw * Elems(inc) == Elems(inc);
    }
  }

  /** An include list with a repeated id finds nothing: a photo can never
      have more distinct included keywords than the list has distinct values. */
  lemma DuplicateIncludeFindsNothing(db: Tables, inc: seq<int>, exc: seq<int>)
    requires !Distinct(inc)
    ensures Search(db, inc, exc) == map[]
  {
    ElemsCardinality(inc);
    forall p ensures p !in Search(db, inc, exc) {
      SearchMembership(db, inc, exc, p);
      var kw := KeywordsOf(db.photoKeywords, p);
      SubsetCardinality(kw * Elems(inc), Elems(inc));
    }
  }

  /** Photos 101 {5, 7}, 102 {5, 7, 9} and 103 {5}, searched with include [5, 7]
      and exclude [9]: only 101 is found (102 has 9, 103 lacks 7). */
  lemma IncludeFiveSevenExcludeNine()
    ensures Search(Tables(map[101 := "p101", 102 := "p102", 103 := "p103"],
                          {(101, 5), (101, 7), (102, 5), (102, 7), (102, 9), (103, 5)}),
                   [5, 7], [9]) == map[101 := "p101"]
  {
    var db := Tables(map[101 := "p101", 102 := "p102", 103 := "p103"],
                     {(101, 5), (101, 7), (102, 5), (102, 7), (102, 9), (103, 5)});
    var r := Search(db, [5, 7], [9]);
    assert Elems([5, 7]) == {5, 7};
    assert Elems([9]) == {9};
    forall p ensures p in r <==> p == 101 {
      SearchIncludesAllExcludesNone(db, [5, 7], [9], p);
      if p == 101 {
        assert KeywordsOf(db.photoKeywords, p) == {5, 7};
      } else if p == 102 {
        assert 9 in KeywordsOf(db.photoKeywords, p);
      } else if p == 103 {
        assert KeywordsOf(db.photoKeywords, p) == {5};
      }
    }
  }
}
