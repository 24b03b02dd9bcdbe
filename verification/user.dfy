/**
  `User`: an account record. A new user is made with `createNewUser`, which
  selects the user's namespace, creates its tables and aims the save target
  at `authentication`; the setters fill a pending object that `save` appends
  to that table. `setDataFromCache` reads a user back from a namespace
  document.

  The instance's `memDB` reference is not a field here: the operations take
  the database they act on and return it as it is left.
 */
module UserAccount {
  import opened JsValues
  import MemCache
  import MemoryDb

  /** The fields of a `User` instance; `None` stands for `undefined`. */
  datatype User = User(
    isAdmin: Option<Json>,
    dateJoined: Option<Json>,
    username: Option<Json>,
    email: Option<Json>,
    isActive: Option<Json>,
    password: Option<Json>,
    searchTerms: Option<Json>,
    favourites: Option<Json>,
    ratings: Option<Json>,
    watchingList: Option<Json>,
    keywords: Option<Json>,
    apiCalls: Option<Json>,
    createNewCalled: bool,
    objToSave: map<string, Json>)

  /** A database together with the user a call hands back, or the error it threw. */
  datatype Bound = Bound(db: MemoryDb.Db, user: Result<User>)

  /** `save`'s effect on its receiver, and what it returns. */
  datatype Saved = Saved(self: User, bound: Bound)

  /** Every field as the constructor leaves it: `null`. */
  predicate Blank(u: User) {
    && u.isAdmin == Some(Null) && u.dateJoined == Some(Null) && u.username == Some(Null)
    && u.email == Some(Null) && u.isActive == Some(Null) && u.password == Some(Null)
    && u.searchTerms == Some(Null) && u.favourites == Some(Null) && u.ratings == Some(Null)
    && u.watchingList == Some(Null) && u.keywords == Some(Null) && u.apiCalls == Some(Null)
  }

  /** `new User(memDB)`. */
  function Fresh(): (u: User)
    ensures Blank(u) && !u.createNewCalled && u.objToSave == map[]
    ensures CountAPIRequests(u) == Some(Num(0))
  {
    User(Some(Null), Some(Null), Some(Null), Some(Null), Some(Null), Some(Null),
         Some(Null), Some(Null), Some(Null), Some(Null), Some(Null), Some(Null), false, map[])
  }

  /** A user as `createNewUser` returns it: blank, flagged, with only the joining date to save. */
  predicate JustCreated(u: User, joined: string) {
    Blank(u) && u.createNewCalled && u.objToSave == map["joined" := Str(joined)]
  }

  // ------------------------------------------------------------- creation

  /** An argument as `setCacheName` sees it: `undefined` behaves as `null`. */
  function NameArg(v: Option<Json>): Json {
    if v.Some? then v.value else Null
  }

  /**
    `User.createNewUser(cacheDB, username)`: reset the database, select the
    user's namespace, create its tables, aim the save target at
    `authentication`, and return a flagged user holding the joining date.
    A truthy username that is not a string throws before the tables are made.
   */
  function CreateNewUser(db: MemoryDb.Db, est: MemCache.Estimator, username: Option<Json>, joined: string): (r: Bound)
    ensures var name := NameArg(username);
      !Falsy(name) && !name.Str? ==> r.user == Err(TypeError) && r.db.name == MemoryDb.DefaultName
    ensures r.user.Ok? ==> JustCreated(r.user.value, joined) && CountAPIRequests(r.user.value) == Some(Num(0))
    ensures r.user.Ok? ==> r.db.saveAs == Str(MemoryDb.Authentication)
  {
    match MemoryDb.SelectNamespace(db, NameArg(username))
    case Threw(d1, e) => Bound(d1, Err(e))
    case Done(d1) =>
      match MemoryDb.CreateTables(d1, est)
      case Threw(d2, e) => Bound(d2, Err(e))
      case Done(d2) =>
        Bound(MemoryDb.SetSaveAs(d2, Str(MemoryDb.Authentication)),
              Ok(Fresh().(objToSave := map["joined" := Str(joined)], createNewCalled := true)))
  }

  /**
    `createNewUser` fails only on a bad name, for lack of room or for lack of
    an owner id; a user it hands back is bound to its own namespace, which is
    then stored.
   */
  lemma CreateNewUserOutcome(db: MemoryDb.Db, est: MemCache.Estimator, username: Option<Json>, joined: string)
    ensures var r := CreateNewUser(db, est, username, joined);
      && (r.user.Err? ==> r.user.error == TypeError || r.user.error == CacheSizeExceeded || r.user.error == NoCacheId)
      && (r.user.Ok? ==> MemoryDb.Present(r.db) && r.db.id == db.id)
      && (r.user.Ok? ==> r.db.name == MemoryDb.NamespaceOf(NameArg(username)))
  {
    var name := NameArg(username);
    if Falsy(name) || name.Str? {
      var d1 := db.(name := MemoryDb.NamespaceOf(name));
      MemoryDb.NamespaceIsLowerCase(name);
      if !MemoryDb.Present(d1) {
        MemoryDb.CreateTablesWrites(d1, est);
      }
    }
  }

  // -------------------------------------------------------------- setters

  /** A public setter: one property of the object to save. */
  function SetPending(u: User, field: string, v: Json): (r: User)
    ensures field in r.objToSave && r.objToSave[field] == v
    ensures forall k :: k in u.objToSave && k != field ==> k in r.objToSave && r.objToSave[k] == u.objToSave[k]
    ensures r.objToSave.Keys == u.objToSave.Keys + {field}
    ensures r.(objToSave := u.objToSave) == u
  {
    u.(objToSave := u.objToSave[field := v])
  }

  function SetUsername(u: User, username: Json): User { SetPending(u, "username", username) }
  function SetEmail(u: User, email: Json): User { SetPending(u, "email", email) }
  function SetPassword(u: User, password: Json): User { SetPending(u, "password", password) }
  /** `setIsAdmin(isAdmin = true)`: callers without an argument pass `Bool(true)`. */
  function SetIsAdmin(u: User, isAdmin: Json): User { SetPending(u, "isAdmin", isAdmin) }
  /** `setActive(isActive = true)`: callers without an argument pass `Bool(true)`. */
  function SetActive(u: User, isActive: Json): User { SetPending(u, "isActive", isActive) }

  /**
    The setters leave the public fields alone: a created user keeps a `null`
    `username` whatever `setUsername` was given, and so does any user derived
    from it by setters.
   */
  lemma SettersKeepPublicFields(u: User, joined: string, name: Json, email: Json, password: Json)
    requires JustCreated(u, joined)
    ensures var v := SetPassword(SetEmail(SetUsername(u, name), email), password);
      && Blank(v) && v.createNewCalled
      && v.objToSave == map["joined" := Str(joined), "username" := name, "email" := email, "password" := password]
  {
  }

  // --------------------------------------------------------------- counts

  /** `field.length`: a `TypeError` on `null`/`undefined`, the element count of an array or string. */
  function LengthOf(v: Option<Json>): (r: Result<Option<Json>>)
    ensures r.Err? <==> Nullish(v)
    ensures r.Err? ==> r.error == TypeError
    ensures v.Some? && v.value.Arr? ==> r == Ok(Some(Num(|v.value.elems|)))
    ensures v.Some? && v.value.Str? ==> r == Ok(Some(Num(|v.value.s|)))
    ensures v.Some? && v.value.Obj? ==> r == Ok(Get(v.value, "length"))
  {
    Read(v, "length")
  }

  function CountSearchTerms(u: User): Result<Option<Json>> { LengthOf(u.searchTerms) }
  function CountFavourites(u: User): Result<Option<Json>> { LengthOf(u.favourites) }
  function CountRatings(u: User): Result<Option<Json>> { LengthOf(u.ratings) }
  function CountWatchlistItems(u: User): Result<Option<Json>> { LengthOf(u.watchingList) }

  /** `countAPIRequests`: `_API_CALLS`, or 0 while it is `null`. No method ever assigns it. */
  function CountAPIRequests(u: User): (r: Option<Json>)
    ensures u.apiCalls == Some(Null) ==> r == Some(Num(0))
    ensures u.apiCalls != Some(Null) ==> r == u.apiCalls
  {
    if u.apiCalls == Some(Null) then Some(Num(0)) else u.apiCalls
  }

  // ----------------------------------------------------------------- save

  /**
    `save()`: refuses a user that did not come from `createNewUser`; forces
    `isActive` and `isAdmin` to true in the object to save; appends
    `[objToSave]` under the key `authentication` to the save target; saves;
    and returns `createNewUser(memDB, this.username)`.
   */
  function Save(u: User, db: MemoryDb.Db, est: MemCache.Estimator, now: int, joined: string): (r: Saved)
    ensures !u.createNewCalled ==> r == Saved(u, Bound(db, Err(CreateNewNotCalled)))
    ensures u.createNewCalled ==> r.self == Activated(u)
    ensures r.bound.user.Ok? ==>
      JustCreated(r.bound.user.value, joined) && r.bound.db.saveAs == Str(MemoryDb.Authentication)
  {
    if !u.createNewCalled then Saved(u, Bound(db, Err(CreateNewNotCalled)))
    else
      var u1 := Activated(u);
      match MemoryDb.SetItemToSave(db, MemoryDb.Authentication, Arr([Obj(u1.objToSave)]), now)
      case Threw(d1, e) => Saved(u1, Bound(d1, Err(e)))
      case Done(d1) =>
        match MemoryDb.Save(d1, est)
        case Threw(d2, e) => Saved(u1, Bound(d2, Err(e)))
        case Done(d2) => Saved(u1, CreateNewUser(d2, est, u1.username, joined))
  }

  /** `setActive()` then `setIsAdmin()`: both flags forced to true in the object to save, nothing else touched. */
  function Activated(u: User): (r: User)
    ensures r.objToSave.Keys == u.objToSave.Keys + {"isActive", "isAdmin"}
    ensures r.objToSave["isActive"] == Bool(true) && r.objToSave["isAdmin"] == Bool(true)
    ensures forall k :: k in u.objToSave && k != "isActive" && k != "isAdmin" ==> r.objToSave[k] == u.objToSave[k]
    ensures r.(objToSave := u.objToSave) == u
  {
    SetIsAdmin(SetActive(u, Bool(true)), Bool(true))
  }

  /** The record `save` appends for a user: `{authentication: [objToSave], timeStamp, parentID}`. */
  function AuthenticationRecord(obj: map<string, Json>, now: int, id: string): Json {
    AuthenticationIsLowerCase();
    MemoryDb.NewRecord(MemoryDb.Authentication, Arr([Obj(obj)]), now, id)
  }

  lemma AuthenticationIsLowerCase()
    ensures IsLowerCase(MemoryDb.Authentication) && Lower(MemoryDb.Authentication) == MemoryDb.Authentication
  {
    assert forall i :: 0 <= i < |MemoryDb.Authentication| ==> !IsUpper(MemoryDb.Authentication[i]);
    LowerOfLowerCase(MemoryDb.Authentication);
  }

  /** With the save target on `authentication`, the record is appended to the namespace's table. */
  lemma AuthenticationAppended(db: MemoryDb.Db, obj: map<string, Json>, now: int)
    requires db.name != "" && Lower(db.name) == db.name
    requires db.saveAs == Str(MemoryDb.Authentication)
    requires db.name in db.mem.cache && IsArrayField(db.mem.cache[db.name], MemoryDb.Authentication)
    ensures var doc := MemoryDb.WithAppended(db.mem.cache[db.name], MemoryDb.Authentication, AuthenticationRecord(obj, now, db.id));
      MemoryDb.SetItemToSave(db, MemoryDb.Authentication, Arr([Obj(obj)]), now) == Done(db.(pending := Some(doc)))
  {
    AuthenticationIsLowerCase();
    MemoryDb.AppendToNamespace(db, db.name, MemoryDb.Authentication, MemoryDb.Authentication, Arr([Obj(obj)]), now);
    assert MemoryDb.SetSaveAs(db.(name := db.name), Str(MemoryDb.Authentication)) == db;
  }

  /**
    The write half of `save`: with the save target on `authentication`, the
    record is appended to the namespace's `authentication` table; the document
    is written back when the cache has room for it, and otherwise the cache's
    error is thrown with the cache as it was.
   */
  lemma SaveWritesRecord(db: MemoryDb.Db, est: MemCache.Estimator, obj: map<string, Json>, now: int)
    requires db.name != "" && Lower(db.name) == db.name
    requires db.saveAs == Str(MemoryDb.Authentication)
    requires db.name in db.mem.cache && IsArrayField(db.mem.cache[db.name], MemoryDb.Authentication)
    ensures var n := db.name;
      var doc := MemoryDb.WithAppended(db.mem.cache[n], MemoryDb.Authentication, AuthenticationRecord(obj, now, db.id));
      var s := MemoryDb.SetItemToSave(db, MemoryDb.Authentication, Arr([Obj(obj)]), now);
      var d := MemoryDb.Save(s.state, est);
      && s.Done? && d.state.name == n && d.state.id == db.id && d.state.saveAs == db.saveAs
      && (MemCache.Fits(db.mem, est, doc) ==>
            d.Done? && d.state.mem.cache == db.mem.cache[n := doc] && d.state.mem.used == db.mem.used + MemCache.Size(est, doc))
      && (!MemCache.Fits(db.mem, est, doc) ==>
            d.Threw? && d.state.mem == db.mem && (d.error == CacheSizeExceeded || d.error == NoCacheId))
  {
    var doc := MemoryDb.WithAppended(db.mem.cache[db.name], MemoryDb.Authentication, AuthenticationRecord(obj, now, db.id));
    AuthenticationAppended(db, obj, now);
    MemoryDb.SaveWrites(db.(pending := Some(doc)), est);
  }

  /**
    The re-creation at the end of `save`: `this.username` is `null` (the
    setter writes only the object to save), so `createNewUser` selects the
    `default` namespace, whose tables already exist.
   */
  lemma RecreateSelectsDefault(d: MemoryDb.Db, est: MemCache.Estimator, joined: string)
    requires MemoryDb.DefaultName in d.mem.cache && !Falsy(d.mem.cache[MemoryDb.DefaultName])
    ensures var r := CreateNewUser(d, est, Some(Null), joined);
      && r.user.Ok? && JustCreated(r.user.value, joined)
      && r.db.name == MemoryDb.DefaultName && r.db.saveAs == Str(MemoryDb.Authentication) && r.db.mem == d.mem
  {
    MemoryDb.DefaultNameIsLowerCase();
    var d1 := d.(name := MemoryDb.DefaultName);
    assert MemoryDb.Present(d1);
  }

  /**
    `save` on a created user whose namespace has an `authentication` table:
    the record holding the activated object is appended to that table. When
    the cache has room for the document, the user handed back is bound to the
    `default` namespace, not to the user's own; when it has not, `save`
    rejects with the cache's error and the cache is as it was.
   */
  lemma SaveAppendsAuthentication(u: User, db: MemoryDb.Db, est: MemCache.Estimator, now: int, joined: string)
    requires u.createNewCalled && u.username == Some(Null)
    requires db.name != "" && Lower(db.name) == db.name && db.name != MemoryDb.DefaultName
    requires db.saveAs == Str(MemoryDb.Authentication)
    requires db.name in db.mem.cache && IsArrayField(db.mem.cache[db.name], MemoryDb.Authentication)
    requires MemoryDb.DefaultName in db.mem.cache && !Falsy(db.mem.cache[MemoryDb.DefaultName])
    ensures var n := db.name;
      var r := Save(u, db, est, now, joined);
      var obj := u.objToSave["isActive" := Bool(true)]["isAdmin" := Bool(true)];
      var doc := MemoryDb.WithAppended(db.mem.cache[n], MemoryDb.Authentication, AuthenticationRecord(obj, now, db.id));
      && (MemCache.Fits(db.mem, est, doc) ==>
            && r.bound.user.Ok? && JustCreated(r.bound.user.value, joined)
            && r.bound.db.name == MemoryDb.DefaultName
            && r.bound.db.mem.cache == db.mem.cache[n := doc])
      && (!MemCache.Fits(db.mem, est, doc) ==>
            && r.bound.user.Err? && r.bound.db.name == n && r.bound.db.mem == db.mem
            && (r.bound.user.error == CacheSizeExceeded || r.bound.user.error == NoCacheId))
  {
    var obj := u.objToSave["isActive" := Bool(true)]["isAdmin" := Bool(true)];
    var doc := MemoryDb.WithAppended(db.mem.cache[db.name], MemoryDb.Authentication, AuthenticationRecord(obj, now, db.id));
    if MemCache.Fits(db.mem, est, doc) {
      SaveRecreatesDefault(u, db, est, now, joined);
    } else {
      SaveRejectsWhenFull(u, db, est, now, joined);
    }
  }

  /** The written branch of `SaveAppendsAuthentication`. */
  lemma SaveRecreatesDefault(u: User, db: MemoryDb.Db, est: MemCache.Estimator, now: int, joined: string)
    requires u.createNewCalled && u.username == Some(Null)
    requires db.name != "" && Lower(db.name) == db.name && db.name != MemoryDb.DefaultName
    requires db.saveAs == Str(MemoryDb.Authentication)
    requires db.name in db.mem.cache && IsArrayField(db.mem.cache[db.name], MemoryDb.Authentication)
    requires MemoryDb.DefaultName in db.mem.cache && !Falsy(db.mem.cache[MemoryDb.DefaultName])
    requires var obj := u.objToSave["isActive" := Bool(true)]["isAdmin" := Bool(true)];
      MemCache.Fits(db.mem, est,
        MemoryDb.WithAppended(db.mem.cache[db.name], MemoryDb.Authentication, AuthenticationRecord(obj, now, db.id)))
    ensures var n := db.name;
      var r := Save(u, db, est, now, joined);
      var obj := u.objToSave["isActive" := Bool(true)]["isAdmin" := Bool(true)];
      var doc := MemoryDb.WithAppended(db.mem.cache[n], MemoryDb.Authentication, AuthenticationRecord(obj, now, db.id));
      && r.bound.user.Ok? && JustCreated(r.bound.user.value, joined)
      && r.bound.db.name == MemoryDb.DefaultName
      && r.bound.db.mem.cache == db.mem.cache[n := doc]
  {
    var u1 := Activated(u);
    assert u1.objToSave == u.objToSave["isActive" := Bool(true)]["isAdmin" := Bool(true)];
    SaveWritesRecord(db, est, u1.objToSave, now);
    var s := MemoryDb.SetItemToSave(db, MemoryDb.Authentication, Arr([Obj(u1.objToSave)]), now);
    var d := MemoryDb.Save(s.state, est);
    SaveAfterWrites(u, db, est, now, joined);
    RecreateSelectsDefault(d.state, est, joined);
  }

  /** The rejected branch of `SaveAppendsAuthentication`. */
  lemma SaveRejectsWhenFull(u: User, db: MemoryDb.Db, est: MemCache.Estimator, now: int, joined: string)
    requires u.createNewCalled
    requires db.name != "" && Lower(db.name) == db.name
    requires db.saveAs == Str(MemoryDb.Authentication)
    requires db.name in db.mem.cache && IsArrayField(db.mem.cache[db.name], MemoryDb.Authentication)
    requires var obj := u.objToSave["isActive" := Bool(true)]["isAdmin" := Bool(true)];
      !MemCache.Fits(db.mem, est,
        MemoryDb.WithAppended(db.mem.cache[db.name], MemoryDb.Authentication, AuthenticationRecord(obj, now, db.id)))
    ensures var r := Save(u, db, est, now, joined);
      && r.bound.user.Err? && r.bound.db.name == db.name && r.bound.db.mem == db.mem
      && (r.bound.user.error == CacheSizeExceeded || r.bound.user.error == NoCacheId)
  {
    var u1 := Activated(u);
    assert u1.objToSave == u.objToSave["isActive" := Bool(true)]["isAdmin" := Bool(true)];
    SaveWritesRecord(db, est, u1.objToSave, now);
    SaveAfterWrites(u, db, est, now, joined);
  }

  /** Once the record is set, `save`'s outcome is that of the database save, followed by the re-creation. */
  lemma SaveAfterWrites(u: User, db: MemoryDb.Db, est: MemCache.Estimator, now: int, joined: string)
    requires u.createNewCalled
    ensures var u1 := Activated(u);
      var s := MemoryDb.SetItemToSave(db, MemoryDb.Authentication, Arr([Obj(u1.objToSave)]), now);
      var d := MemoryDb.Save(s.state, est);
      s.Done? ==>
        Save(u, db, est, now, joined) ==
          if d.Done? then Saved(u1, CreateNewUser(d.state, est, u1.username, joined))
          else Saved(u1, Bound(d.state, Err(d.error)))
  {
  }

  /** `cache?.authentication[0]?.authentication[0]`. */
  function AuthenticationEntry(cache: Json): (r: Result<Option<Json>>)
    ensures cache == Null ==> r == Ok(None)
    ensures cache != Null && Nullish(Get(cache, MemoryDb.Authentication)) ==> r == Err(TypeError)
  {
    if cache == Null then Ok(None)
    else
      match Read(Get(cache, MemoryDb.Authentication), "0")
      case Err(e) => Err(e)
      case Ok(first) =>
        if Nullish(first) then Ok(None)
        else Read(Get(first.value, MemoryDb.Authentication), "0")
  }

  /**
    `User.setDataFromCache(cache)`: anything but an object, array or `null`
    is refused. The user's fields are read from the first entry of the first
    `authentication` record, its tables from the document itself; a missing
    entry makes the read throw.
   */
  function SetDataFromCache(cache: Option<Json>): (r: Result<User>)
    ensures !IsObjectType(cache) ==> r == Err(UserCacheNotObject)
    ensures IsObjectType(cache) && r.Err? ==> r.error == TypeError
    ensures cache == Some(Null) ==> r == Err(TypeError)
    ensures r.Ok? ==> !r.value.createNewCalled && r.value.objToSave == map[]
    ensures r.Ok? ==> CountAPIRequests(r.value) == Some(Num(0))
    ensures r.Ok? ==>
      && r.value.searchTerms == Get(cache.value, MemoryDb.Search)
      && r.value.favourites == Get(cache.value, MemoryDb.Favourites)
      && r.value.ratings == Get(cache.value, MemoryDb.Ratings)
      && r.value.watchingList == Get(cache.value, MemoryDb.WatchList)
  {
    if !IsObjectType(cache) then Err(UserCacheNotObject)
    else
      match AuthenticationEntry(cache.value)
      case Err(e) => Err(e)
      case Ok(entry) =>
        if Nullish(entry) then Err(TypeError)
        else
          var o := entry.value;
          var c := cache.value;
          Ok(Fresh().(
            dateJoined := Get(o, "joined"), username := Get(o, "username"), email := Get(o, "email"),
            password := Get(o, "password"), isActive := Get(o, "isActive"), isAdmin := Get(o, "isAdmin"),
            searchTerms := Get(c, MemoryDb.Search), ratings := Get(c, MemoryDb.Ratings),
            favourites := Get(c, MemoryDb.Favourites), watchingList := Get(c, MemoryDb.WatchList),
            keywords := Get(c, "keywords")))
  }

  /**
    Reading back what `save` wrote: once the record is the first of the
    `authentication` table, `setDataFromCache` recovers the saved fields,
    the forced flags among them.
   */
  lemma LoadAfterSave(doc: Json, obj: map<string, Json>, now: int, id: string)
    requires IsArrayField(doc, MemoryDb.Authentication) && doc.fields[MemoryDb.Authentication].elems == []
    ensures var saved := obj["isActive" := Bool(true)]["isAdmin" := Bool(true)];
      var stored := MemoryDb.WithAppended(doc, MemoryDb.Authentication, AuthenticationRecord(saved, now, id));
      var r := SetDataFromCache(Some(stored));
      && r.Ok?
      && r.value.isActive == Some(Bool(true)) && r.value.isAdmin == Some(Bool(true))
      && r.value.username == Get(Obj(obj), "username") && r.value.email == Get(Obj(obj), "email")
      && r.value.password == Get(Obj(obj), "password") && r.value.dateJoined == Get(Obj(obj), "joined")
  {
    var saved := obj["isActive" := Bool(true)]["isAdmin" := Bool(true)];
    var rec := AuthenticationRecord(saved, now, id);
    var stored := MemoryDb.WithAppended(doc, MemoryDb.Authentication, rec);
    ZeroIndex();
    assert stored.fields[MemoryDb.Authentication].elems == [rec];
    assert Get(stored, MemoryDb.Authentication) == Some(Arr([rec]));
    assert Get(rec, MemoryDb.Authentication) == Some(Arr([Obj(saved)]));
    assert AuthenticationEntry(stored) == Ok(Some(Obj(saved)));
  }

  /**
    `setDataFromCache` reads a `keywords` property, but the table
    `createTables` makes is `keyWords`: read from a user document, the
    keywords are always `undefined`.
   */
  lemma KeywordsNotRead(id: string, rec: Json)
    ensures var doc := MemoryDb.WithAppended(MemoryDb.UserDoc(id), MemoryDb.Authentication, rec);
      var r := SetDataFromCache(Some(doc));
      r.Ok? ==> r.value.keywords == None
  {
    MemoryDb.UserDocSchema(id);
    assert "keywords" !in MemoryDb.UserDoc(id).fields;
  }
}
