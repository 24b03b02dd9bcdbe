/**
  Cache-aside retrieval: `fetchOrUseCache` looks the term up in a table it is
  handed and only on a miss calls the remote API, persisting what comes back
  through `handleFetchResponse`.

  The remote `fetch` is an oracle indexed by call number, so a run reports how
  many calls it made; the clock is an oracle of the same shape. Both functions
  are `async`: the model runs each call to completion, so other handlers that
  could touch the shared database at an `await` are not modelled.
 */
module FetchHelper {
  import opened JsValues
  import MemCache
  import MemoryDb

  /** A response: its `ok` flag and what `response.json()` resolves to (or rejects with). */
  datatype Response = Response(ok: bool, body: Result<Json>)

  /** The request, reduced to `req.session.userId`; `Null` when no user is signed in. */
  datatype Request = Request(userId: Json)

  /** The `data` object a route fills in before the call; `data` is set by the call. */
  datatype FetchData = FetchData(tableName: string, tableArray: Json, saveAs: Json, fetchError: string, data: Option<Json>)

  /** After `handleFetchResponse`: the database, the (mutated) `data` object, and the returned value. */
  datatype Handled = Handled(db: MemoryDb.Db, data: FetchData, result: Result<Option<FetchData>>)

  /** What `fetchOrUseCache` resolves to: `{data: cached}`, the `data` object, or `undefined`. */
  datatype Served = FromCache(payload: Option<Json>) | Fetched(data: FetchData) | NoValue

  datatype Run = Run(db: MemoryDb.Db, data: FetchData, calls: nat, result: Result<Served>)

  /**
    The writes of `handleFetchResponse` for an ok response: select the user's
    namespace, set the save target, append `[body]` under `key`, and save. A
    failing save is logged and swallowed ("the cache is full"); the other
    steps can throw.
   */
  function Persist(db: MemoryDb.Db, userId: Json, saveAs: Json, key: string, body: Json,
                   est: MemCache.Estimator, now: int): (r: Outcome<MemoryDb.Db>)
    ensures r.Threw? ==> r.error == TypeError
    ensures r.Done? && (Falsy(userId) || userId.Str?) ==>
      r.state.name == MemoryDb.NamespaceOf(userId) && r.state.saveAs == saveAs && r.state.id == db.id
  {
    match MemoryDb.SelectNamespace(db, userId)
    case Threw(s1, e) => Threw(s1, e)
    case Done(s1) =>
      match MemoryDb.SetItemToSave(MemoryDb.SetSaveAs(s1, saveAs), key, Arr([body]), now)
      case Threw(s3, e) => Threw(s3, e)
      case Done(s3) => Done(MemoryDb.Save(s3, est).state)
  }

  /**
    `handleFetchResponse`: a response that is not ok leaves everything alone
    and yields no value. An ok response sets `data.data` and persists the body
    under the lower-cased table name; any error on the way is rethrown
    prefixed with `data.fetchError`.
   */
  function HandleFetchResponse(req: Request, resp: Response, data: FetchData, db: MemoryDb.Db,
                               est: MemCache.Estimator, now: int): (r: Handled)
    ensures !resp.ok ==> r == Handled(db, data, Ok(None))
    ensures resp.ok && resp.body.Err? ==> r == Handled(db, data, Err(Prefixed(data.fetchError, resp.body.error)))
    ensures resp.ok && resp.body.Ok? ==> r.data == data.(data := Some(resp.body.value))
    ensures resp.ok && resp.body.Ok? && r.result.Err? ==> r.result.error == Prefixed(data.fetchError, TypeError)
    ensures resp.ok && r.result.Ok? ==> r.result.value == Some(r.data)
    ensures resp.ok && resp.body.Ok? ==>
      var w := Persist(db, req.userId, data.saveAs, Lower(data.tableName), resp.body.value, est, now);
      r.db == w.state && (r.result.Ok? <==> w.Done?)
  {
    if !resp.ok then Handled(db, data, Ok(None))
    else
      match resp.body
      case Err(e) => Handled(db, data, Err(Prefixed(data.fetchError, e)))
      case Ok(body) =>
        var data1 := data.(data := Some(body));
        match Persist(db, req.userId, data.saveAs, Lower(data.tableName), body, est, now)
        case Threw(s, e) => Handled(s, data1, Err(Prefixed(data.fetchError, e)))
        case Done(s) => Handled(s, data1, Ok(Some(data1)))
  }

  /**
    `fetchOrUseCache`: a hit answers `{data: cached}` with no remote call and
    no change to the database. A miss fetches and handles the response; when
    that response is ok the remote is called and handled a second time, and
    when it is not, setting `error` on the missing result throws.
   */
  function FetchOrUseCache(req: Request, data: FetchData, db: MemoryDb.Db, est: MemCache.Estimator,
                           remote: nat -> Result<Response>, clock: nat -> int): (r: Run)
    ensures r.calls <= 2
    ensures MemoryDb.IsSearchTermInCache(data.tableName, data.tableArray).Err? ==>
      r == Run(db, data, 0, Err(MemoryDb.IsSearchTermInCache(data.tableName, data.tableArray).error))
    ensures forall p :: MemoryDb.IsSearchTermInCache(data.tableName, data.tableArray) == Ok((true, p)) ==>
      r == Run(db, data, 0, Ok(FromCache(p)))
    ensures MemoryDb.IsSearchTermInCache(data.tableName, data.tableArray).Ok? &&
            !MemoryDb.IsSearchTermInCache(data.tableName, data.tableArray).value.0 ==>
      && r.calls >= 1
      && (remote(0).Err? ==> r == Run(db, data, 1, Err(remote(0).error)))
      && (remote(0).Ok? && !remote(0).value.ok ==> r == Run(db, data, 1, Err(TypeError)))
      && ((remote(0).Ok? && remote(0).value.ok &&
           HandleFetchResponse(req, remote(0).value, data, db, est, clock(0)).result.Ok?) ==> r.calls == 2)
    ensures r.result.Err? && r.calls == 2 ==> r.result.error.Prefixed? || remote(1).Err?
  {
    match MemoryDb.IsSearchTermInCache(data.tableName, data.tableArray)
    case Err(e) => Run(db, data, 0, Err(e))
    case Ok(lookup) =>
      if lookup.0 then Run(db, data, 0, Ok(FromCache(lookup.1)))
      else
        match remote(0)
        case Err(e) => Run(db, data, 1, Err(e))
        case Ok(resp) =>
          var h := HandleFetchResponse(req, resp, data, db, est, clock(0));
          if h.result.Err? then Run(h.db, h.data, 1, Err(h.result.error))
          else if !resp.ok then Run(h.db, h.data, 1, Err(TypeError))
          else
            match remote(1)
            case Err(e) => Run(h.db, h.data, 2, Err(e))
            case Ok(resp2) =>
              var h2 := HandleFetchResponse(req, resp2, h.data, h.db, est, clock(1));
              var served := match h2.result
                case Err(e) => Err(e)
                case Ok(None) => Ok(NoValue)
                case Ok(Some(d)) => Ok(Fetched(d));
              Run(h2.db, h2.data, 2, served)
  }

  // ------------------------------------------------------------ properties

  /** The record `handleFetchResponse` appends for a body. */
  function FetchRecord(data: FetchData, body: Json, now: int, id: string): Json {
    MemoryDb.NewRecord(Lower(Lower(data.tableName)), Arr([body]), now, id)
  }

  /**
    When the save fails, the fetched data is still returned, and the store is
    as it was.
   */
  lemma StoreFailureIsSwallowed(req: Request, body: Json, data: FetchData, db: MemoryDb.Db, est: MemCache.Estimator, now: int)
    requires Falsy(req.userId) || req.userId.Str?
    requires var s2 := MemoryDb.SetSaveAs(db.(name := MemoryDb.NamespaceOf(req.userId)), data.saveAs);
      var s3 := MemoryDb.SetItemToSave(s2, Lower(data.tableName), Arr([body]), now);
      s3.Done? && MemoryDb.Save(s3.state, est).Threw?
    ensures var r := HandleFetchResponse(req, Response(true, Ok(body)), data, db, est, now);
      r.result == Ok(Some(data.(data := Some(body)))) && r.db.mem == db.mem
  {
  }

  /**
    The writes for one body append a record to the target table of the user's
    namespace and save it when the cache has room for the whole document;
    when it has not, the failed save is swallowed and the cache is as it was.
   */
  lemma PersistAppends(db: MemoryDb.Db, userId: Json, t: string, key: string, body: Json,
                       est: MemCache.Estimator, now: int)
    requires Falsy(userId) || userId.Str?
    requires MemoryDb.SingleTarget(t)
    requires MemoryDb.NamespaceOf(userId) in db.mem.cache && IsArrayField(db.mem.cache[MemoryDb.NamespaceOf(userId)], t)
    ensures var n := MemoryDb.NamespaceOf(userId);
      var doc := MemoryDb.WithAppended(db.mem.cache[n], t, MemoryDb.NewRecord(Lower(key), Arr([body]), now, db.id));
      var r := Persist(db, userId, Str(t), key, body, est, now);
      && r.Done? && r.state.name == n && r.state.saveAs == Str(t) && r.state.id == db.id
      && (MemCache.Fits(db.mem, est, doc) ==>
            && r.state.pending == Some(Obj(map[]))
            && r.state.mem.cache == db.mem.cache[n := doc] && r.state.mem.used == db.mem.used + MemCache.Size(est, doc)
            && r.state.mem.capacity == db.mem.capacity && r.state.mem.owner == db.mem.owner)
      && (!MemCache.Fits(db.mem, est, doc) ==> r.state.mem == db.mem && r.state.pending == Some(doc))
  {
    var n := MemoryDb.NamespaceOf(userId);
    var doc := MemoryDb.WithAppended(db.mem.cache[n], t, MemoryDb.NewRecord(Lower(key), Arr([body]), now, db.id));
    PersistIsSaveOfAppend(db, userId, t, key, body, est, now);
    MemoryDb.NamespaceIsLowerCase(userId);
    MemoryDb.SaveWrites(db.(name := n, saveAs := Str(t), pending := Some(doc)), est);
  }

  /** Before the save, the writes leave the appended document pending under the user's namespace. */
  lemma PersistIsSaveOfAppend(db: MemoryDb.Db, userId: Json, t: string, key: string, body: Json,
                              est: MemCache.Estimator, now: int)
    requires Falsy(userId) || userId.Str?
    requires MemoryDb.SingleTarget(t)
    requires MemoryDb.NamespaceOf(userId) in db.mem.cache && IsArrayField(db.mem.cache[MemoryDb.NamespaceOf(userId)], t)
    ensures var n := MemoryDb.NamespaceOf(userId);
      var doc := MemoryDb.WithAppended(db.mem.cache[n], t, MemoryDb.NewRecord(Lower(key), Arr([body]), now, db.id));
      Persist(db, userId, Str(t), key, body, est, now) ==
        Done(MemoryDb.Save(db.(name := n, saveAs := Str(t), pending := Some(doc)), est).state)
  {
    var n := MemoryDb.NamespaceOf(userId);
    MemoryDb.NamespaceIsLowerCase(userId);
    MemoryDb.AppendToNamespace(db, n, t, key, Arr([body]), now);
    assert MemoryDb.SelectNamespace(db, userId) == Done(db.(name := n));
  }

  /**
    One ok response yields the fetched data and appends `[body]` to the target
    table of the user's namespace, writing the namespace back when the cache
    has room for it; without room the cache is left as it was.
   */
  lemma HandleAppends(req: Request, body: Json, data: FetchData, db: MemoryDb.Db, est: MemCache.Estimator,
                      now: int, t: string)
    requires Falsy(req.userId) || req.userId.Str?
    requires MemoryDb.SingleTarget(t) && data.saveAs == Str(t)
    requires MemoryDb.NamespaceOf(req.userId) in db.mem.cache && IsArrayField(db.mem.cache[MemoryDb.NamespaceOf(req.userId)], t)
    ensures var n := MemoryDb.NamespaceOf(req.userId);
      var doc := MemoryDb.WithAppended(db.mem.cache[n], t, FetchRecord(data, body, now, db.id));
      var r := HandleFetchResponse(req, Response(true, Ok(body)), data, db, est, now);
      && r.result == Ok(Some(data.(data := Some(body))))
      && r.data == data.(data := Some(body))
      && r.db.name == n && r.db.saveAs == Str(t) && r.db.id == db.id
      && (MemCache.Fits(db.mem, est, doc) ==>
            && r.db.pending == Some(Obj(map[]))
            && r.db.mem.cache == db.mem.cache[n := doc] && r.db.mem.used == db.mem.used + MemCache.Size(est, doc)
            && r.db.mem.capacity == db.mem.capacity && r.db.mem.owner == db.mem.owner)
      && (!MemCache.Fits(db.mem, est, doc) ==> r.db.mem == db.mem)
  {
    PersistAppends(db, req.userId, t, Lower(data.tableName), body, est, now);
  }

  /**
    On a miss whose first response is ok and handled without error, the remote
    is called a second time and that response is handled on the database the
    first left behind.
   */
  lemma MissFetchesTwice(req: Request, data: FetchData, db: MemoryDb.Db, est: MemCache.Estimator,
                         remote: nat -> Result<Response>, clock: nat -> int)
    requires MemoryDb.IsSearchTermInCache(data.tableName, data.tableArray).Ok?
    requires !MemoryDb.IsSearchTermInCache(data.tableName, data.tableArray).value.0
    requires remote(0).Ok? && remote(0).value.ok && remote(1).Ok?
    requires HandleFetchResponse(req, remote(0).value, data, db, est, clock(0)).result.Ok?
    ensures var h := HandleFetchResponse(req, remote(0).value, data, db, est, clock(0));
      var h2 := HandleFetchResponse(req, remote(1).value, h.data, h.db, est, clock(1));
      var r := FetchOrUseCache(req, data, db, est, remote, clock);
      && r.calls == 2 && r.db == h2.db && r.data == h2.data
      && (h2.result == Ok(Some(h2.data)) ==> r.result == Ok(Fetched(h2.data)))
      && (h2.result == Ok(None) ==> r.result == Ok(NoValue))
  {
  }

  /**
    On a miss whose responses are both ok, the remote is called twice and the
    fetched data of the second call is served. The target table gains one
    record per response whose save found room: both when there is room for
    the first document and then for the second, only the first when the
    second does not fit, and only the second when the first does not fit but
    the second, written on the unchanged cache, does.
   */
  lemma DoubleFetchAppendsTwice(req: Request, data: FetchData, db: MemoryDb.Db, est: MemCache.Estimator,
                                remote: nat -> Result<Response>, clock: nat -> int, t: string,
                                b1: Json, b2: Json)
    requires MemoryDb.IsSearchTermInCache(data.tableName, data.tableArray).Ok?
    requires !MemoryDb.IsSearchTermInCache(data.tableName, data.tableArray).value.0
    requires remote(0) == Ok(Response(true, Ok(b1))) && remote(1) == Ok(Response(true, Ok(b2)))
    requires Falsy(req.userId) || req.userId.Str?
    requires MemoryDb.SingleTarget(t) && data.saveAs == Str(t)
    requires MemoryDb.NamespaceOf(req.userId) in db.mem.cache && IsArrayField(db.mem.cache[MemoryDb.NamespaceOf(req.userId)], t)
    ensures var n := MemoryDb.NamespaceOf(req.userId);
      var r := FetchOrUseCache(req, data, db, est, remote, clock);
      var before := db.mem.cache[n].fields[t].elems;
      var rec1 := FetchRecord(data, b1, clock(0), db.id);
      var rec2 := FetchRecord(data, b2, clock(1), db.id);
      var doc1 := MemoryDb.WithAppended(db.mem.cache[n], t, rec1);
      var doc2 := MemoryDb.WithAppended(doc1, t, rec2);
      var alone := MemoryDb.WithAppended(db.mem.cache[n], t, rec2);
      var used1 := db.mem.used + MemCache.Size(est, doc1);
      && r.calls == 2
      && r.result == Ok(Fetched(data.(data := Some(b2))))
      && n in r.db.mem.cache && IsArrayField(r.db.mem.cache[n], t)
      && (MemCache.Fits(db.mem, est, doc1) && used1 + MemCache.Size(est, doc2) <= db.mem.capacity ==>
            r.db.mem.cache[n].fields[t].elems == before + [rec1, rec2])
      && (MemCache.Fits(db.mem, est, doc1) && used1 + MemCache.Size(est, doc2) > db.mem.capacity ==>
            r.db.mem.cache == db.mem.cache[n := doc1])
      && (!MemCache.Fits(db.mem, est, doc1) && MemCache.Fits(db.mem, est, alone) ==>
            r.db.mem.cache[n].fields[t].elems == before + [rec2])
      && (!MemCache.Fits(db.mem, est, doc1) && !MemCache.Fits(db.mem, est, alone) ==> r.db.mem == db.mem)
  {
    var key := Lower(data.tableName);
    var n := MemoryDb.NamespaceOf(req.userId);
    var rec1 := FetchRecord(data, b1, clock(0), db.id);
    var doc1 := MemoryDb.WithAppended(db.mem.cache[n], t, rec1);
    PersistAppends(db, req.userId, t, key, b1, est, clock(0));
    var s1 := Persist(db, req.userId, Str(t), key, b1, est, clock(0)).state;
    if MemCache.Fits(db.mem, est, doc1) {
      AppendAfterAppend(db, s1, req.userId, t, key, b2, est, clock(1), rec1);
    } else {
      PersistAppends(s1, req.userId, t, key, b2, est, clock(1));
    }
    var h := HandleFetchResponse(req, Response(true, Ok(b1)), data, db, est, clock(0));
    assert h.data == data.(data := Some(b1));
    MissFetchesTwice(req, data, db, est, remote, clock);
  }

  /** Two appends to the same array field leave both records last, in order. */
  lemma AppendedTwice(doc: Json, t: string, rec1: Json, rec2: Json)
    requires IsArrayField(doc, t)
    ensures var d := MemoryDb.WithAppended(MemoryDb.WithAppended(doc, t, rec1), t, rec2);
      IsArrayField(d, t) && d.fields[t].elems == doc.fields[t].elems + [rec1, rec2]
  {
    var before := doc.fields[t].elems;
    assert (before + [rec1]) + [rec2] == before + [rec1, rec2];
  }

  /**
    A second write after a first: the target table ends with both records when
    the cache has room for the second document, and otherwise the cache the
    first write left behind is kept.
   */
  lemma AppendAfterAppend(db: MemoryDb.Db, s1: MemoryDb.Db, userId: Json, t: string, key: string, b2: Json,
                          est: MemCache.Estimator, now2: int, rec1: Json)
    requires Falsy(userId) || userId.Str?
    requires MemoryDb.SingleTarget(t)
    requires MemoryDb.NamespaceOf(userId) in db.mem.cache && IsArrayField(db.mem.cache[MemoryDb.NamespaceOf(userId)], t)
    requires var n := MemoryDb.NamespaceOf(userId);
      s1.mem.cache == db.mem.cache[n := MemoryDb.WithAppended(db.mem.cache[n], t, rec1)]
    ensures var n := MemoryDb.NamespaceOf(userId);
      var rec2 := MemoryDb.NewRecord(Lower(key), Arr([b2]), now2, s1.id);
      var doc2 := MemoryDb.WithAppended(MemoryDb.WithAppended(db.mem.cache[n], t, rec1), t, rec2);
      var p2 := Persist(s1, userId, Str(t), key, b2, est, now2);
      && p2.Done? && n in p2.state.mem.cache && IsArrayField(p2.state.mem.cache[n], t)
      && (MemCache.Fits(s1.mem, est, doc2) ==>
            p2.state.mem.cache[n].fields[t].elems == db.mem.cache[n].fields[t].elems + [rec1, rec2])
      && (!MemCache.Fits(s1.mem, est, doc2) ==> p2.state.mem == s1.mem)
  {
    var n := MemoryDb.NamespaceOf(userId);
    var doc1 := MemoryDb.WithAppended(db.mem.cache[n], t, rec1);
    var rec2 := MemoryDb.NewRecord(Lower(key), Arr([b2]), now2, s1.id);
    var doc2 := MemoryDb.WithAppended(doc1, t, rec2);
    assert s1.mem.cache[n] == doc1;
    PersistAppends(s1, userId, t, key, b2, est, now2);
    var p2 := Persist(s1, userId, Str(t), key, b2, est, now2);
    if MemCache.Fits(s1.mem, est, doc2) {
      assert p2.state.mem.cache[n] == doc2;
      AppendedTwice(db.mem.cache[n], t, rec1, rec2);
    } else {
      assert p2.state.mem.cache[n] == doc1;
    }
  }
}
