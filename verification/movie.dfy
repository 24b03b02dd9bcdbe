/**
  `Movie`: looks a film up by id in a namespace document, under the table
  the selected category maps to (or the table a search query names).
 */
module MovieLookup {
  import opened JsValues
  import MemoryDb

  const LatestFilms: string := "latest-films"
  const TvShowsTable: string := "tv-shows"

  /** A `Movie` instance: the document it searches and the selected category (`None` is `undefined`). */
  datatype Movie = Movie(store: Json, category: Option<Json>)

  /** `new Movie(memDbCache)`: anything but an object, array or `null` is refused. */
  function New(store: Option<Json>): (r: Result<Movie>)
    ensures r.Ok? <==> IsObjectType(store)
    ensures r.Err? ==> r.error == MovieStoreNotObject
    ensures r.Ok? ==> r.value.store == store.value && r.value.category == Some(Null)
  {
    if IsObjectType(store) then Ok(Movie(store.value, Some(Null))) else Err(MovieStoreNotObject)
  }

  /** The getter `category`. */
  function Category(m: Movie): Option<Json> {
    m.category
  }

  function SetCategory(m: Movie, category: Option<Json>): (r: Movie)
    ensures Category(r) == category && r.store == m.store
  {
    m.(category := category)
  }

  /** The getter reads back what the setter wrote, and setting what the getter reads changes nothing. */
  lemma CategoryRoundTrip(m: Movie, category: Option<Json>)
    ensures Category(SetCategory(m, category)) == category
    ensures SetCategory(m, Category(m)) == m
  {
  }

  /** `_mapCacheToTableName`: a strict-equality switch over three save types; anything else maps to `undefined`. */
  function MapCacheToTableName(category: Option<Json>): (r: Option<string>)
    ensures r == Some(LatestFilms) <==> category == Some(Str(MemoryDb.Movies))
    ensures r == Some(TvShowsTable) <==> category == Some(Str(MemoryDb.TvShows))
    ensures r == Some(MemoryDb.Search) <==> category == Some(Str(MemoryDb.Search))
    ensures r.None? <==> category !in {Some(Str(MemoryDb.Movies)), Some(Str(MemoryDb.TvShows)), Some(Str(MemoryDb.Search))}
  {
    if category == Some(Str(MemoryDb.Movies)) then Some(LatestFilms)
    else if category == Some(Str(MemoryDb.TvShows)) then Some(TvShowsTable)
    else if category == Some(Str(MemoryDb.Search)) then Some(MemoryDb.Search)
    else None
  }

  /** `store?.[category]?.[0][table]?.[0].results`; reading through a missing non-optional step throws. */
  function ResultsAt(store: Json, categoryKey: string, tableKey: string): (r: Result<Option<Json>>)
    ensures r.Err? ==> r.error == TypeError
  {
    if store == Null then Ok(None)
    else
      var byCategory := Get(store, categoryKey);
      if Nullish(byCategory) then Ok(None)
      else
        match Read(Get(byCategory.value, "0"), tableKey)
        case Err(e) => Err(e)
        case Ok(byTable) =>
          if Nullish(byTable) then Ok(None)
          else Read(Get(byTable.value, "0"), "results")
  }

  /** `String(movie.id) === String(id)`. */
  predicate IdMatches(movie: Json, id: Option<Json>) {
    Text(Get(movie, "id")) == Text(id)
  }

  /** Where `find` stops: at a match, or at a `null` element, whose `id` cannot be read. */
  predicate Stops(movie: Json, id: Option<Json>) {
    movie == Null || IdMatches(movie, id)
  }

  /** The index where `find` stops: the first element that matches or is `null`, or the length when none does. */
  function FirstStop(movies: seq<Json>, id: Option<Json>): (i: nat)
    ensures i <= |movies|
    ensures forall j :: 0 <= j < i ==> !Stops(movies[j], id)
    ensures i < |movies| ==> Stops(movies[i], id)
  {
    if movies == [] then 0
    else if Stops(movies[0], id) then 0
    else
      var i := FirstStop(movies[1..], id);
      assert forall j :: 1 <= j < |movies| ==> movies[j] == movies[1..][j - 1];
      i + 1
  }

  /**
    `movies.find(movie => String(movie.id) === String(id))` on an array: the
    element where the search stops, `None` when it runs off the end, and a
    `TypeError` when it stops at a `null` element.
   */
  function FindFirst(movies: seq<Json>, id: Option<Json>): (r: Result<Option<Json>>)
    ensures var i := FirstStop(movies, id);
      && (i == |movies| ==> r == Ok(None))
      && (i < |movies| && movies[i] == Null ==> r == Err(TypeError))
      && (i < |movies| && movies[i] != Null ==> r == Ok(Some(movies[i])))
    decreases |movies|
  {
    if movies == [] then Ok(None)
    else if movies[0] == Null then Err(TypeError)
    else if IdMatches(movies[0], id) then Ok(Some(movies[0]))
    else FindFirst(movies[1..], id)
  }

  /**
    `_findMovieHelper(id, searchQuery = null)`: refuses an unset category;
    reads the results under the category and the mapped table (or the
    lower-cased search query); returns the first movie with that id, or
    `null`.
   */
  function FindMovieHelper(m: Movie, id: Option<Json>, searchQuery: Json): (r: Result<Json>)
    ensures !Truthy(m.category) ==> r == Err(CategoryNotSet)
    ensures Truthy(m.category) && searchQuery != Null && !searchQuery.Str? ==> r == Err(TypeError)
    ensures r.Err? ==> r.error == CategoryNotSet || r.error == TypeError
    ensures r.Ok? && r.value != Null ==> IdMatches(r.value, id)
  {
    if !Truthy(m.category) then Err(CategoryNotSet)
    else if searchQuery != Null && !searchQuery.Str? then Err(TypeError)
    else
      var tableName := if searchQuery == Null then MapCacheToTableName(m.category) else Some(Lower(searchQuery.s));
      SearchTable(m.store, Text(m.category), if tableName.Some? then tableName.value else "undefined", id)
  }

  /**
    The search once the keys are known: no results (or falsy ones) give
    `null`; results that are not an array throw; otherwise the first movie
    with the id, or `null`.
   */
  function SearchTable(store: Json, categoryKey: string, tableKey: string, id: Option<Json>): (r: Result<Json>)
    ensures r.Err? ==> r.error == TypeError
    ensures r.Ok? && r.value != Null ==> IdMatches(r.value, id)
  {
    match ResultsAt(store, categoryKey, tableKey)
    case Err(e) => Err(e)
    case Ok(movies) =>
      if !Truthy(movies) then Ok(Null)
      else if !movies.value.Arr? then Err(TypeError)
      else
        match FindFirst(movies.value.elems, id)
        case Err(e) => Err(e)
        case Ok(found) => if found.Some? && !Falsy(found.value) then Ok(found.value) else Ok(Null)
  }

  /**
    `getMovieByID(id)`: the search with no query, in the category's mapped
    table; it throws "The category is not set" exactly when the category is
    unset, and any movie it hands back has the id.
   */
  function GetMovieByID(m: Movie, id: Option<Json>): (r: Result<Json>)
    ensures r == FindMovieByIdAndQuery(m, id, None) && r == FindMovieByIdAndQuery(m, id, Some(Null))
    ensures r == Err(CategoryNotSet) <==> !Truthy(m.category)
    ensures r.Ok? && r.value != Null ==> IdMatches(r.value, id)
  {
    FindMovieHelper(m, id, Null)
  }

  /**
    `findMovieByIdAndQuery(id, searchQuery)`: an `undefined` query takes the
    default `null`; a query that is neither `null` nor a string cannot be
    lower-cased and throws once the category is set.
   */
  function FindMovieByIdAndQuery(m: Movie, id: Option<Json>, searchQuery: Option<Json>): (r: Result<Json>)
    ensures !Truthy(m.category) ==> r == Err(CategoryNotSet)
    ensures Truthy(m.category) && searchQuery.Some? && searchQuery.value != Null && !searchQuery.value.Str? ==>
      r == Err(TypeError)
    ensures r.Ok? && r.value != Null ==> IdMatches(r.value, id)
  {
    FindMovieHelper(m, id, if searchQuery.Some? then searchQuery.value else Null)
  }

  // ------------------------------------------------------------ properties

  /** A category's lookup document: `{category: [{table: [{results: movies}]}]}`. */
  function Shaped(category: string, table: string, movies: seq<Json>): Json {
    Obj(map[category := Arr([Obj(map[table := Arr([Obj(map["results" := Arr(movies)])])])])])
  }

  /** `ResultsAt` on a shaped document reaches the movie list. */
  lemma ShapedResults(category: string, table: string, movies: seq<Json>)
    ensures ResultsAt(Shaped(category, table, movies), category, table) == Ok(Some(Arr(movies)))
  {
    ZeroIndex();
  }

  /** The document and category the lookup lemmas search: `movies`, whose table is `latest-films`. */
  function FilmsOf(movies: seq<Json>): Movie {
    Movie(Shaped(MemoryDb.Movies, LatestFilms, movies), Some(Str(MemoryDb.Movies)))
  }

  /** `getMovieByID` on the `movies` category gives `null` when no element stops the search. */
  lemma GetMovieByIdMisses(movies: seq<Json>, id: Option<Json>)
    requires forall k :: 0 <= k < |movies| ==> !Stops(movies[k], id)
    ensures GetMovieByID(FilmsOf(movies), id) == Ok(Null)
  {
    ShapedResults(MemoryDb.Movies, LatestFilms, movies);
    assert Text(FilmsOf(movies).category) == MemoryDb.Movies;
  }

  /**
    `getMovieByID` on the `movies` category looks in `latest-films`: where the
    search first stops, a matching object is handed back and a `null`
    element throws.
   */
  lemma GetMovieByIdFindsFirst(movies: seq<Json>, id: Option<Json>, i: nat)
    requires i < |movies| && (forall k :: 0 <= k < i ==> !Stops(movies[k], id)) && Stops(movies[i], id)
    ensures movies[i] == Null ==> GetMovieByID(FilmsOf(movies), id) == Err(TypeError)
    ensures movies[i].Obj? ==> GetMovieByID(FilmsOf(movies), id) == Ok(movies[i])
  {
    FirstStopIsUnique(movies, id, i);
    FilmsSearchList(movies, id);
  }

  /** On the `movies` category, `getMovieByID` is the `find` over the `latest-films` results. */
  lemma FilmsSearchList(movies: seq<Json>, id: Option<Json>)
    ensures FindFirst(movies, id).Err? ==> GetMovieByID(FilmsOf(movies), id) == Err(FindFirst(movies, id).error)
    ensures FindFirst(movies, id).Ok? && FindFirst(movies, id).value.Some? && FindFirst(movies, id).value.value.Obj? ==>
      GetMovieByID(FilmsOf(movies), id) == Ok(FindFirst(movies, id).value.value)
  {
    ShapedSearch(MemoryDb.Movies, LatestFilms, movies, id);
    assert Text(FilmsOf(movies).category) == MemoryDb.Movies;
  }

  /**
    With a string query, `findMovieByIdAndQuery` searches the table the
    lower-cased query names under the category, whatever table the category
    maps to.
   */
  lemma QuerySearchList(category: string, query: string, movies: seq<Json>, id: Option<Json>)
    requires category != ""
    ensures var m := Movie(Shaped(category, Lower(query), movies), Some(Str(category)));
      var r := FindMovieByIdAndQuery(m, id, Some(Str(query)));
      var f := FindFirst(movies, id);
      && (f.Err? ==> r == Err(f.error))
      && (f == Ok(None) ==> r == Ok(Null))
      && (f.Ok? && f.value.Some? && f.value.value.Obj? ==> r == Ok(f.value.value))
  {
    var table := Lower(query);
    var m := Movie(Shaped(category, table, movies), Some(Str(category)));
    ShapedSearch(category, table, movies, id);
    QuerySearchesItsTable(m, id, query);
    assert Text(m.category) == category;
  }

  /** With a set category, a string query selects the table it names, lower-cased. */
  lemma QuerySearchesItsTable(m: Movie, id: Option<Json>, query: string)
    requires Truthy(m.category)
    ensures FindMovieByIdAndQuery(m, id, Some(Str(query))) == SearchTable(m.store, Text(m.category), Lower(query), id)
  {
  }

  /** On a shaped document, the search of a category's table is the `find` over its movie list. */
  lemma ShapedSearch(category: string, table: string, movies: seq<Json>, id: Option<Json>)
    ensures var r := SearchTable(Shaped(category, table, movies), category, table, id);
      var f := FindFirst(movies, id);
      && (f.Err? ==> r == Err(f.error))
      && (f == Ok(None) ==> r == Ok(Null))
      && (f.Ok? && f.value.Some? && f.value.value.Obj? ==> r == Ok(f.value.value))
  {
    ShapedResults(category, table, movies);
    assert Truthy(Some(Arr(movies)));
    var f := FindFirst(movies, id);
    assert SearchTable(Shaped(category, table, movies), category, table, id) ==
      match f
      case Err(e) => Err(e)
      case Ok(found) => if found.Some? && !Falsy(found.value) then Ok(found.value) else Ok(Null);
  }

  /** The first index where the search stops is the one `FirstStop` finds. */
  lemma FirstStopIsUnique(movies: seq<Json>, id: Option<Json>, i: nat)
    requires i < |movies| && (forall k :: 0 <= k < i ==> !Stops(movies[k], id)) && Stops(movies[i], id)
    ensures FirstStop(movies, id) == i
  {
  }

  /** The search query is lower-cased before use, so its letter case does not matter. */
  lemma QueryCaseIgnored(m: Movie, id: Option<Json>, query: string)
    ensures FindMovieByIdAndQuery(m, id, Some(Str(query))) == FindMovieByIdAndQuery(m, id, Some(Str(Lower(query))))
  {
    LowerIdempotent(query);
  }

  /**
    An element without an `id` reads as `undefined`, whose text is
    "undefined": it matches a missing id and the string "undefined" alike.
   */
  lemma MissingIdMatchesUndefinedText(movie: Json)
    requires movie.Obj? && "id" !in movie.fields
    ensures IdMatches(movie, None) && IdMatches(movie, Some(Str("undefined")))
    ensures !IdMatches(movie, Some(Null))
  {
  }

  /** Ids are compared as strings: a numeric id matches its decimal text. */
  lemma NumericIdMatchesText()
    ensures IdMatches(Obj(map["id" := Num(42)]), Some(Str("42")))
    ensures !IdMatches(Obj(map["id" := Num(42)]), Some(Str("042")))
  {
    assert NatText(42) == NatText(4) + [DigitChar(2)];
  }
}
