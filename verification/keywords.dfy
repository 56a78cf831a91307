/** Keyword resolution: `keyword_exists` looks one keyword up in the
    `keywords(id, keyword)` table, and `get_keyword_ids` maps every token of a
    comma-separated argument to its id, stopping at the first unknown one. */
module Keywords {
  import opened Wrappers
  import opened PySplit

  /** The `keywords` table as a relation from keyword text to id; the keyword column is the key. */
  type KeywordTable = map<string, int>

  /** The `ValueError("Keyword not found: " + keyword)` raised for an unknown token. */
  datatype ResolveError = KeywordNotFound(keyword: string)

  /** A row of the `keywords(id, keyword)` table. */
  datatype KeywordRow = KeywordRow(id: int, keyword: string)

  /** `SELECT id FROM keywords WHERE keyword = %s` followed by `fetchone()`
      over the table's rows in the order the database returns them: the id of
      the first row whose keyword equals `k` exactly, or no row. */
  function FetchOne(rows: seq<KeywordRow>, k: string): (r: Option<int>)
    ensures r.Some? <==> exists i :: 0 <= i < |rows| && rows[i].keyword == k
    ensures r.Some? ==> exists i :: 0 <= i < |rows| && rows[i].keyword == k && rows[i].id == r.value
                                   && forall j :: 0 <= j < i ==> rows[j].keyword != k
    decreases |rows|
  {
    if |rows| == 0 then None
    else if rows[0].keyword == k then Some(rows[0].id)
    else
      var r := FetchOne(rows[1..], k);
      assert forall i :: 1 <= i < |rows| ==> rows[1..][i - 1] == rows[i];
      r
  }

  /** The rows and the keyword-to-id map describe the same table: every row is
      an entry of the map and every keyword of the map has a row. Because the
      map gives one id per keyword, this holds only when no keyword has two
      rows with different ids. */
  ghost predicate Represents(rows: seq<KeywordRow>, table: KeywordTable)
  {
    && (forall i :: 0 <= i < |rows| ==> rows[i].keyword in table && table[rows[i].keyword] == rows[i].id)
    && (forall k :: k in table ==> exists i :: 0 <= i < |rows| && rows[i].keyword == k)
  }

  /** On a table whose keyword column is unique, `fetchone()` over the rows is
      the map lookup the rest of the model resolves keywords with. */
  lemma FetchOneAgreesWithTable(rows: seq<KeywordRow>, table: KeywordTable, k: string)
    requires Represents(rows, table)
    ensures FetchOne(rows, k) == Lookup(table, k)
  {
    if k in table {
      var i :| 0 <= i < |rows| && rows[i].keyword == k;
    }
  }

  /** With two rows for one keyword, `fetchone()` returns the first row's id. */
  lemma FetchOneTakesFirstRow(k: string)
    ensures FetchOne([KeywordRow(4, k), KeywordRow(8, k)], k) == Some(4)
  {
  }

  /** The keyword-to-id map lookup: the id of `k`, or none. */
  function Lookup(table: KeywordTable, k: string): Option<int>
  {
    if k in table then Some(table[k]) else None
  }

  /** True iff every token has a row in the table. */
  predicate AllKnown(table: KeywordTable, tokens: seq<string>)
  {
    forall i :: 0 <= i < |tokens| ==> tokens[i] in table
  }

  /** The loop of `get_keyword_ids` over already split tokens. */
  function ResolveTokens(table: KeywordTable, tokens: seq<string>): (r: Result<seq<int>, ResolveError>)
    ensures r.Success? <==> AllKnown(table, tokens)
    ensures r.Success? ==> |r.value| == |tokens|
    ensures r.Success? ==> forall i :: 0 <= i < |tokens| ==> r.value[i] == table[tokens[i]]
    ensures r.Failure? ==>
      exists i :: 0 <= i < |tokens| && tokens[i] == r.error.keyword && tokens[i] !in table
                  && AllKnown(table, tokens[..i])
    decreases |tokens|
  {
    if |tokens| == 0 then Success([])
    else
      match Lookup(table, tokens[0])
      case None => Failure(KeywordNotFound(tokens[0]))
      case Some(id) =>
        match ResolveTokens(table, tokens[1..])
        case Failure(e) =>
          var j :| 0 <= j < |tokens| - 1 && tokens[1..][j] == e.keyword && tokens[1..][j] !in table
                   && AllKnown(table, tokens[1..][..j]);
          var prefix := tokens[..j + 1];
          assert prefix == [tokens[0]] + tokens[1..][..j];
          assert AllKnown(table, prefix) by {
            forall k | 0 <= k < j + 1 ensures prefix[k] in table {
              if k > 0 {
                assert prefix[k] == tokens[1..][..j][k - 1];
              }
            }
          }
          Failure(e)
        case Success(ids) => Success([id] + ids)
  }

  /** `get_keyword_ids(keywords)`: split on commas, then resolve every token. */
  function Resolve(table: KeywordTable, csv: string): (r: Result<seq<int>, ResolveError>)
    ensures r.Success? ==> |r.value| == |Split(csv)| >= 1
    ensures r.Success? <==> AllKnown(table, Split(csv))
    ensures r.Success? ==> forall i :: 0 <= i < |r.value| ==> r.value[i] == table[Split(csv)[i]]
    ensures r.Failure? ==> r.error.keyword !in table && r.error.keyword in Split(csv)
  {
    ResolveTokens(table, Split(csv))
  }

  /** The keywords `get_keyword_ids` queries before it returns or raises:
      every token up to and including the first unknown one. */
  function Consulted(table: KeywordTable, tokens: seq<string>): (r: seq<string>)
    ensures |r| <= |tokens| && r == tokens[..|r|]
    ensures AllKnown(table, tokens) ==> r == tokens
    ensures !AllKnown(table, tokens) ==>
      |r| >= 1 && r[|r| - 1] !in table && AllKnown(table, r[..|r| - 1])
    decreases |tokens|
  {
    if |tokens| == 0 then []
    else if tokens[0] !in table then [tokens[0]]
    else
      var rest := Consulted(table, tokens[1..]);
      assert [tokens[0]] + rest == tokens[..|rest| + 1];
      assert !AllKnown(table, tokens) ==> !AllKnown(table, tokens[1..]) by {
        if !AllKnown(table, tokens) {
          var i :| 0 <= i < |tokens| && tokens[i] !in table;
          assert tokens[1..][i - 1] == tokens[i];
        }
      }
      assert !AllKnown(table, tokens) ==> ([tokens[0]] + rest)[..|rest|] == [tokens[0]] + rest[..|rest| - 1];
      [tokens[0]] + rest
  }

  /** A failing resolution reports the FIRST unknown token: the last keyword it queried. */
  lemma {:induction false} FailureReportsFirstUnknown(table: KeywordTable, tokens: seq<string>)
    requires ResolveTokens(table, tokens).Failure?
    ensures ResolveTokens(table, tokens).error.keyword == Consulted(table, tokens)[|Consulted(table, tokens)| - 1]
    decreases |tokens|
  {
    if tokens[0] in table {
      FailureReportsFirstUnknown(table, tokens[1..]);
    }
  }
}
