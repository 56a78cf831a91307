/** The decisions of `main`, with the HTTP server and the database abstracted
    to their answers: list albums, reuse or create the album, resolve the
    include and exclude keywords, search, and push the found photos. The run is
    a pure function from those answers to the requests made and the outcome. */
module Sync {
  import opened Wrappers
  import opened PySplit
  import opened Keywords
  import opened PhotoSearch
  import opened Albums

  /** The command-line arguments `--album`, `--keywords` and `--exclude`. */
  datatype Args = Args(album: string, keywords: string, exclude: string)

  /** The server's answers: the listing status and page, the UID in the
      creation response, and the status of the photo push. */
  datatype Server = Server(listStatus: int, albums: seq<Album>, createdUid: string, pushStatus: int)

  /** The database content the run reads. */
  datatype Database = Database(keywords: KeywordTable, tables: Tables)

  /** Requests `main` makes, in order. */
  datatype Action =
    | ListAlbums
    | CreateAlbum(title: string, description: string)
    | LookupKeyword(keyword: string)
    | RunSearch(inc: seq<int>, exc: seq<int>)
    | PushPhotos(albumUid: string, photos: map<int, string>)

  /** How a run ends. */
  datatype Outcome =
    | AlbumListError
    | KeywordMissing(keyword: string)
    | QueryFailed(error: QueryError)
    | NoPhotosFound
    | PhotosAdded(count: nat)
    | PhotoPushError(count: nat)

  datatype Run = Run(actions: seq<Action>, outcome: Outcome)

  const StatusOk: int := 200

  /** One database lookup request per keyword, in order. */
  function Lookups(keywords: seq<string>): seq<Action>
  {
    seq(|keywords|, i requires 0 <= i < |keywords| => LookupKeyword(keywords[i]))
  }

  predicate IsCreate(a: Action) { a.CreateAlbum? }
  predicate IsPush(a: Action) { a.PushPhotos? }

  /** Number of actions of a kind in a trace. */
  function CountCreates(actions: seq<Action>): nat
  {
    if |actions| == 0 then 0 else (if IsCreate(actions[0]) then 1 else 0) + CountCreates(actions[1..])
  }

  function CountPushes(actions: seq<Action>): nat
  {
    if |actions| == 0 then 0 else (if IsPush(actions[0]) then 1 else 0) + CountPushes(actions[1..])
  }

  /** Some album with the requested title, the last one, carries a truthy UID. */
  ghost predicate ReusableAlbum(albums: seq<Album>, title: string)
  {
    exists i :: IsLastMatch(albums, title, i) && Truthy(albums[i].uid)
  }

  /** One run of `main`. */
  function Main(args: Args, server: Server, db: Database): (r: Run)
    ensures |r.actions| >= 1 && r.actions[0] == ListAlbums
    ensures r.outcome == AlbumListError <==> server.listStatus != StatusOk
    ensures r.outcome == AlbumListError ==> r.actions == [ListAlbums]
    ensures !r.outcome.QueryFailed?
    ensures r.outcome.KeywordMissing? ==> r.outcome.keyword !in db.keywords
    ensures CountCreates(r.actions) <= 1
    ensures CountCreates(r.actions) == 1 <==>
      server.listStatus == StatusOk && !ReusableAlbum(server.albums, args.album)
    ensures CountPushes(r.actions) <= 1
    ensures CountPushes(r.actions) == 1 <==> r.outcome.PhotosAdded? || r.outcome.PhotoPushError?
    ensures r.outcome.PhotosAdded? ==> server.pushStatus == StatusOk
    ensures r.outcome.PhotoPushError? ==> server.pushStatus != StatusOk
  {
    if server.listStatus != StatusOk then Run([ListAlbums], AlbumListError)
    else
      var choice := Decide(server.albums, args.album, args.keywords);
      var albumStep := AlbumStep(choice);
      var rest := AfterAlbum(args, db, TargetAlbum(args, server), server.pushStatus);
      CountsAppend(albumStep, rest.actions);
      Run(albumStep + rest.actions, rest.outcome)
  }

  /** The album requests: the listing, then the creation when no album is reused. */
  function AlbumStep(choice: Choice): (r: seq<Action>)
    ensures |r| >= 1 && r[0] == ListAlbums
    ensures CountCreates(r) == (if choice.Create? then 1 else 0)
    ensures CountPushes(r) == 0
  {
    if choice.Create? then
      assert [ListAlbums][1..] == [];
      CountsAppendOne([ListAlbums], CreateAlbum(choice.title, choice.description));
      [ListAlbums] + [CreateAlbum(choice.title, choice.description)]
    else
      assert [ListAlbums][1..] == [];
      [ListAlbums]
  }

  /** The UID the run pushes into: the reused album's, or the one the creation returned. */
  function TargetAlbum(args: Args, server: Server): string
  {
    var choice := Decide(server.albums, args.album, args.keywords);
    if choice.Use? then choice.uid else server.createdUid
  }

  /** Everything after the album step: resolve both keyword lists, then search and push. */
  function AfterAlbum(args: Args, db: Database, albumUid: string, pushStatus: int): (r: Run)
    ensures CountCreates(r.actions) == 0
    ensures CountPushes(r.actions) <= 1
    ensures CountPushes(r.actions) == 1 <==> r.outcome.PhotosAdded? || r.outcome.PhotoPushError?
    ensures r.outcome != AlbumListError && !r.outcome.QueryFailed?
    ensures r.outcome.KeywordMissing? ==> r.outcome.keyword !in db.keywords
    ensures r.outcome.PhotosAdded? ==> pushStatus == StatusOk
    ensures r.outcome.PhotoPushError? ==> pushStatus != StatusOk
  {
    var incTokens := Split(args.keywords);
    var incStep := Lookups(Consulted(db.keywords, incTokens));
    LookupsCountNothing(Consulted(db.keywords, incTokens));
    match Resolve(db.keywords, args.keywords)
    case Failure(e) => Run(incStep, KeywordMissing(e.keyword))
    case Success(inc) =>
      var excTokens := Split(args.exclude);
      var excStep := incStep + Lookups(Consulted(db.keywords, excTokens));
      CountsOfLookups(incStep, Consulted(db.keywords, excTokens));
      match Resolve(db.keywords, args.exclude)
      case Failure(e) => Run(excStep, KeywordMissing(e.keyword))
      case Success(exc) =>
        var tail := SearchAndPush(db.tables, inc, exc, albumUid, pushStatus);
        CountsAppend(excStep, tail.actions);
        Run(excStep + tail.actions, tail.outcome)
  }

  /** The search request, then one push carrying the whole result when it is non-empty. */
  function SearchAndPush(tables: Tables, inc: seq<int>, exc: seq<int>, albumUid: string, pushStatus: int): (r: Run)
    ensures CountCreates(r.actions) == 0
    ensures CountPushes(r.actions) <= 1
    ensures CountPushes(r.actions) == 1 <==> r.outcome.PhotosAdded? || r.outcome.PhotoPushError?
    ensures |inc| > 0 && |exc| > 0 ==> !r.outcome.QueryFailed?
    ensures r.outcome.QueryFailed? || r.outcome.NoPhotosFound? || r.outcome.PhotosAdded? || r.outcome.PhotoPushError?
    ensures r.outcome.PhotosAdded? ==> pushStatus == StatusOk
    ensures r.outcome.PhotoPushError? ==> pushStatus != StatusOk
  {
    var searchStep := [RunSearch(inc, exc)];
    CountsAppendOne([], RunSearch(inc, exc));
    assert [] + [RunSearch(inc, exc)] == searchStep;
    match SearchPhotos(tables, inc, exc)
    case Failure(e) => Run(searchStep, QueryFailed(e))
    case Success(found) =>
      if |found| == 0 then Run(searchStep, NoPhotosFound)
      else
        CountsAppendOne(searchStep, PushPhotos(albumUid, found));
        Run(searchStep + [PushPhotos(albumUid, found)],
            if pushStatus == StatusOk then PhotosAdded(|found|) else PhotoPushError(|found|))
  }

  lemma {:induction false} CountsAppend(a: seq<Action>, b: seq<Action>)
    ensures CountCreates(a + b) == CountCreates(a) + CountCreates(b)
    ensures CountPushes(a + b) == CountPushes(a) + CountPushes(b)
    decreases |a|
  {
    if |a| == 0 {
      assert a + b == b;
    } else {
      assert (a + b)[1..] == a[1..] + b;
      CountsAppend(a[1..], b);
    }
  }

  lemma CountsAppendOne(a: seq<Action>, x: Action)
    ensures CountCreates(a + [x]) == CountCreates(a) + (if IsCreate(x) then 1 else 0)
    ensures CountPushes(a + [x]) == CountPushes(a) + (if IsPush(x) then 1 else 0)
  {
    CountsAppend(a, [x]);
    assert [x][1..] == [];
  }

  lemma {:induction false} LookupsCountNothing(keywords: seq<string>)
    ensures CountCreates(Lookups(keywords)) == 0 && CountPushes(Lookups(keywords)) == 0
    decreases |keywords|
  {
    if |keywords| > 0 {
      assert Lookups(keywords)[1..] == Lookups(keywords[1..]);
      LookupsCountNothing(keywords[1..]);
    }
  }

  lemma CountsOfLookups(a: seq<Action>, keywords: seq<string>)
    ensures CountCreates(a + Lookups(keywords)) == CountCreates(a)
    ensures CountPushes(a + Lookups(keywords)) == CountPushes(a)
  {
    CountsAppend(a, Lookups(keywords));
    LookupsCountNothing(keywords);
  }

  /** The run pushes iff the listing succeeded, both keyword lists resolved and
      the search found something; the push is the last request, goes to the
      chosen album, and carries exactly the search result. */
  lemma PushIffPhotosFound(args: Args, server: Server, db: Database)
    ensures CountPushes(Main(args, server, db).actions) == 1 <==>
      && server.listStatus == StatusOk
      && Resolve(db.keywords, args.keywords).Success?
      && Resolve(db.keywords, args.exclude).Success?
      && |Search(db.tables, Resolve(db.keywords, args.keywords).value, Resolve(db.keywords, args.exclude).value)| > 0
    ensures CountPushes(Main(args, server, db).actions) == 1 ==>
      var r := Main(args, server, db);
      r.actions[|r.actions| - 1] ==
        PushPhotos(TargetAlbum(args, server),
                   Search(db.tables, Resolve(db.keywords, args.keywords).value, Resolve(db.keywords, args.exclude).value))
  {
  }

  /** An include list naming the same keyword twice (say `beach,beach`) never pushes: the run finds nothing. */
  lemma RepeatedIncludeFindsNothing(args: Args, server: Server, db: Database)
    requires server.listStatus == StatusOk
    requires Resolve(db.keywords, args.keywords).Success?
    requires Resolve(db.keywords, args.exclude).Success?
    requires !Distinct(Resolve(db.keywords, args.keywords).value)
    ensures Main(args, server, db).outcome == NoPhotosFound
    ensures CountPushes(Main(args, server, db).actions) == 0
  {
    DuplicateIncludeFindsNothing(db.tables, Resolve(db.keywords, args.keywords).value, Resolve(db.keywords, args.exclude).value);
  }

  /** An unknown keyword ends the run naming the first unknown token of
      `--keywords`, or, when those are all known, of `--exclude`; the album
      step has already happened, so a created album stays created. */
  lemma UnknownKeywordReported(args: Args, server: Server, db: Database)
    requires server.listStatus == StatusOk
    ensures Main(args, server, db).outcome.KeywordMissing? <==>
      !AllKnown(db.keywords, Split(args.keywords)) || !AllKnown(db.keywords, Split(args.exclude))
    ensures !AllKnown(db.keywords, Split(args.keywords)) ==>
      var c := Consulted(db.keywords, Split(args.keywords));
      Main(args, server, db).outcome == KeywordMissing(c[|c| - 1])
    ensures AllKnown(db.keywords, Split(args.keywords)) && !AllKnown(db.keywords, Split(args.exclude)) ==>
      var c := Consulted(db.keywords, Split(args.exclude));
      Main(args, server, db).outcome == KeywordMissing(c[|c| - 1])
    ensures Main(args, server, db).outcome.KeywordMissing? ==>
      CountCreates(Main(args, server, db).actions) == (if ReusableAlbum(server.albums, args.album) then 0 else 1)
  {
    var inc := Split(args.keywords);
    var exc := Split(args.exclude);
    var rest := AfterAlbum(args, db, TargetAlbum(args, server), server.pushStatus);
    AfterAlbumKeywordOutcome(args, db, TargetAlbum(args, server), server.pushStatus);
    assert Main(args, server, db).outcome == rest.outcome;
    if !AllKnown(db.keywords, inc) {
      FailureReportsFirstUnknown(db.keywords, inc);
    } else if !AllKnown(db.keywords, exc) {
      FailureReportsFirstUnknown(db.keywords, exc);
    }
  }

  /** After the album step, the run fails on a keyword exactly when a resolution fails, naming its keyword. */
  lemma AfterAlbumKeywordOutcome(args: Args, db: Database, albumUid: string, pushStatus: int)
    ensures Resolve(db.keywords, args.keywords).Failure? ==>
      AfterAlbum(args, db, albumUid, pushStatus).outcome == KeywordMissing(Resolve(db.keywords, args.keywords).error.keyword)
    ensures Resolve(db.keywords, args.keywords).Success? && Resolve(db.keywords, args.exclude).Failure? ==>
      AfterAlbum(args, db, albumUid, pushStatus).outcome == KeywordMissing(Resolve(db.keywords, args.exclude).error.keyword)
    ensures Resolve(db.keywords, args.keywords).Success? && Resolve(db.keywords, args.exclude).Success? ==>
      !AfterAlbum(args, db, albumUid, pushStatus).outcome.KeywordMissing?
  {
  }
}
