/**
  `MemoryDB`: namespaces on top of a `MemoryCache`. Each namespace is one
  document stored under its lower-cased name, mapping table names to arrays
  of records. The database keeps a selected namespace name, a save target (the
  table the next append goes to) and a pending document that `save` writes
  back.

  A `MemoryDB` method may throw part-way; the `Outcome` it returns carries the
  database as the exception leaves it.
 */
module MemoryDb {
  import opened JsValues
  import MemCache

  // `CacheSaveTypes`. There is no `keyWords` constant: the switch case that
  // names it compares against `undefined`, which a set save target never is.
  const Search: string := "searchTerms"
  const Favourites: string := "favourites"
  const Ratings: string := "ratings"
  const WatchList: string := "watchingList"
  const Authentication: string := "authentication"
  const Profile: string := "profile"
  const HomePage: string := "homePage"
  const ApiCalls: string := "API_CALLS"
  const MainType: string := "main"
  const Movies: string := "movies"
  const TvShows: string := "tvShows"

  /** A table of user namespaces that no save type selects. */
  const KeyWords: string := "keyWords"

  const DefaultName: string := "default"
  /** The constructor's default `defaultCacheName`, before lower-casing. */
  const ConstructorName: string := "Default"

  const UserTables: seq<string> :=
    [Search, Favourites, Ratings, WatchList, KeyWords, Authentication, Movies, TvShows, Profile]
  const DefaultTables: seq<string> := [Search, Movies, TvShows, HomePage]

  datatype Db = Db(name: string, pending: Option<Json>, saveAs: Json, id: string, mem: MemCache.Store)

  // ------------------------------------------------------------ documents

  /** The document of a fresh user namespace. */
  function UserDoc(id: string): Json {
    Obj(map[Search := Arr([]), Favourites := Arr([]), Ratings := Arr([]), WatchList := Arr([]),
            KeyWords := Arr([]), Authentication := Arr([]), Movies := Arr([]), TvShows := Arr([]),
            Profile := Arr([]), "parentId" := Str(id)])
  }

  /** The document of the shared `default` namespace. */
  function DefaultDoc(id: string): Json {
    Obj(map[Search := Arr([]), Movies := Arr([]), TvShows := Arr([]), HomePage := Arr([]),
            "parentId" := Str(id)])
  }

  /** A user namespace holds exactly the nine tables, all empty, and the owner id. */
  lemma UserDocSchema(id: string)
    ensures UserDoc(id).Obj? && UserDoc(id).fields.Keys == (set t | t in UserTables) + {"parentId"}
    ensures forall t :: t in UserTables ==> UserDoc(id).fields[t] == Arr([])
    ensures UserDoc(id).fields["parentId"] == Str(id)
  {
  }

  /** The `default` namespace holds exactly its four tables, all empty, and the owner id. */
  lemma DefaultDocSchema(id: string)
    ensures DefaultDoc(id).Obj? && DefaultDoc(id).fields.Keys == (set t | t in DefaultTables) + {"parentId"}
    ensures forall t :: t in DefaultTables ==> DefaultDoc(id).fields[t] == Arr([])
    ensures DefaultDoc(id).fields["parentId"] == Str(id)
  {
  }

  /** The record `setItemToSave` builds: the payload under a lower-case key, a timestamp and the owner tag. */
  function NewRecord(key: string, item: Json, now: int, id: string): (r: Json)
    requires IsLowerCase(key)
    ensures r.Obj? && r.fields.Keys == {key, "timeStamp", "parentID"} && |r.fields| == 3
    ensures Get(r, key) == Some(item)
    ensures Get(r, "timeStamp") == Some(Num(now)) && Get(r, "parentID") == Some(Str(id))
    ensures MemCache.ParentIdMatches(r, Some(id))
  {
    assert !IsLowerCase("timeStamp") by { assert IsUpper("timeStamp"[4]); }
    assert !IsLowerCase("parentID") by { assert IsUpper("parentID"[6]); }
    Obj(map[key := item, "timeStamp" := Num(now), "parentID" := Str(id)])
  }

  // ------------------------------------------------------------ the object

  /**
    `new MemoryDB(memCache, defaultCacheName = "Default")`: the backing cache
    must be an object; it is bound to the new id. `backing == None` stands for
    a `memCache` whose `cache` field is not an object (the "must be an
    instance" error). An `undefined` `memCache`, which throws a `TypeError` at
    `.cache` instead, and a `null` `cache`, which passes the `typeof` test,
    are not represented. An omitted name (`None`, i.e. `undefined`) takes the
    default, stored as written; the getter lower-cases it.
   */
  function New(backing: Option<MemCache.Store>, id: string, defaultName: Option<string>): (r: Result<Db>)
    ensures r.Err? <==> backing.None?
    ensures r.Err? ==> r.error == NotAnObject
    ensures r.Ok? ==> r.value.mem.owner == Some(id) && r.value.id == id
    ensures r.Ok? && defaultName.None? ==> r.value.name == "Default" && CacheName(r.value) == DefaultName
    ensures r.Ok? && defaultName.Some? ==> r.value.name == defaultName.value
    ensures r.Ok? ==> r.value.mem.cache == backing.value.cache && r.value.mem.used == backing.value.used
    ensures r.Ok? ==> r.value.mem.capacity == backing.value.capacity
    ensures r.Ok? ==> r.value.pending == None && Falsy(r.value.saveAs)
  {
    match backing
    case None => Err(NotAnObject)
    case Some(m) =>
      var name := if defaultName.Some? then defaultName.value else ConstructorName;
      Ok(Db(name, None, Null, id, MemCache.SetId(m, id)))
  }

  /** The getter `cacheName`. */
  function CacheName(db: Db): (r: string)
    ensures IsLowerCase(r) && |r| == |db.name|
    ensures IsLowerCase(db.name) ==> r == db.name
  {
    LowerOfLowerCaseIfLower(db.name);
    Lower(db.name)
  }

  lemma LowerOfLowerCaseIfLower(s: string)
    ensures IsLowerCase(s) ==> Lower(s) == s
  {
    if IsLowerCase(s) {
      LowerOfLowerCase(s);
    }
  }

  /** `setCacheName(name)`: a falsy name is ignored, a string is lower-cased, anything else has no `toLowerCase`. */
  function SetCacheName(db: Db, name: Json): (r: Outcome<Db>)
    ensures Falsy(name) ==> r == Done(db)
    ensures name.Str? && name.s != "" ==> r == Done(db.(name := Lower(name.s)))
    ensures r.Done? ==> IsLowerCase(r.state.name) || r.state == db
    ensures r.Threw? <==> !Falsy(name) && !name.Str?
    ensures r.Threw? ==> r.state == db && r.error == TypeError
  {
    if Falsy(name) then Done(db)
    else if name.Str? then Done(db.(name := Lower(name.s)))
    else Threw(db, TypeError)
  }

  /** `reset(newName)`: selects a name as given, without lower-casing it. */
  function Reset(db: Db, newName: string): (r: Db)
    ensures r.name == newName
    ensures r.mem == db.mem && r.pending == db.pending && r.saveAs == db.saveAs && r.id == db.id
  {
    db.(name := newName)
  }

  /** The namespace `reset()` followed by `setCacheName(name)` selects: `default` unless the name is truthy. */
  function NamespaceOf(name: Json): string
    requires Falsy(name) || name.Str?
  {
    if Falsy(name) then DefaultName else Lower(name.s)
  }

  /** `reset()` then `setCacheName(name)`: a truthy name that is not a string throws. */
  function SelectNamespace(db: Db, name: Json): (r: Outcome<Db>)
    ensures Falsy(name) || name.Str? ==> r == Done(db.(name := NamespaceOf(name)))
    ensures r.Threw? <==> !Falsy(name) && !name.Str?
    ensures r.Threw? ==> r.error == TypeError && r.state.name == DefaultName
  {
    var d := Reset(db, DefaultName);
    if Falsy(name) then Done(d) else SetCacheName(d, name)
  }

  lemma NamespaceIsLowerCase(name: Json)
    requires Falsy(name) || name.Str?
    ensures NamespaceOf(name) != "" && Lower(NamespaceOf(name)) == NamespaceOf(name)
  {
    DefaultNameIsLowerCase();
    if !Falsy(name) {
      LowerIdempotent(name.s);
    }
  }

  function SetSaveAs(db: Db, target: Json): (r: Db)
    ensures r.saveAs == target
    ensures r.mem == db.mem && r.pending == db.pending && r.name == db.name && r.id == db.id
  {
    db.(saveAs := target)
  }

  /** `getCacheByName(name)`: the stored document, or null when the key is missing. */
  function GetCacheByName(db: Db, name: string): (r: Option<Json>)
    ensures r.Some? <==> Lower(name) in db.mem.cache
    ensures r.Some? ==> r.value == db.mem.cache[Lower(name)]
  {
    match MemCache.GetItem(db.mem, Lower(name))
    case Ok(d) => Some(d)
    case Err(_) => None
  }

  /** `getDefaultCache`: parsing the missing raw value is a syntax error. */
  function GetDefaultCache(db: Db): (r: Result<Json>)
    ensures r.Ok? <==> DefaultName in db.mem.cache
    ensures r.Ok? ==> r.value == db.mem.cache[DefaultName]
  {
    if DefaultName in db.mem.cache then Ok(db.mem.cache[DefaultName]) else Err(SyntaxError)
  }

  /** The selected namespace's document, when one is stored and truthy. */
  predicate Present(db: Db) {
    var d := GetCacheByName(db, db.name);
    d.Some? && !Falsy(d.value)
  }

  function MaximumSize(db: Db): (r: int)
    ensures r == MemCache.LocalStorageSize(db.mem)
  {
    db.mem.capacity
  }

  function RemainingSpace(db: Db): (r: int)
    ensures r == MaximumSize(db) - MemCache.SpaceUsed(db.mem)
  {
    MemCache.AvailableSpace(db.mem)
  }

  // ---------------------------------------------------------------- save

  /**
    `save`: a pending document with no keys is skipped; otherwise it is written
    under the lower-cased name and the pending document becomes `{}`.
   */
  function Save(db: Db, est: MemCache.Estimator): (r: Outcome<Db>)
    ensures db.pending == None ==> r == Threw(db, TypeError)
    ensures db.pending.Some? && KeyCount(db.pending.value) == Ok(0) ==> r == Done(db)
    ensures r.Threw? ==> r.state == db
    ensures db.pending.Some? && KeyCount(db.pending.value).Ok? && KeyCount(db.pending.value).value != 0 ==>
      var m := MemCache.SetItem(db.mem, est, Lower(db.name), db.pending.value);
      && (m.Ok? ==> r == Done(db.(mem := m.value, pending := Some(Obj(map[])))))
      && (m.Err? ==> r == Threw(db, m.error))
  {
    match db.pending
    case None => Threw(db, TypeError)
    case Some(p) =>
      match KeyCount(p)
      case Err(e) => Threw(db, e)
      case Ok(n) =>
        if n == 0 then Done(db)
        else
          match MemCache.SetItem(db.mem, est, Lower(db.name), p)
          case Err(e) => Threw(db, e)
          case Ok(m) => Done(db.(mem := m, pending := Some(Obj(map[]))))
  }

  /**
    Saving a non-empty pending object under a selected lower-case name writes
    it, charged in full, when the cache has room and an owner; otherwise the
    cache's error is thrown and nothing changes.
   */
  lemma SaveWrites(s: Db, est: MemCache.Estimator)
    requires s.pending.Some? && s.pending.value.Obj? && s.pending.value.fields != map[]
    requires s.name != "" && Lower(s.name) == s.name
    ensures MemCache.Fits(s.mem, est, s.pending.value) ==>
      Save(s, est) ==
        Done(s.(mem := s.mem.(cache := s.mem.cache[s.name := s.pending.value],
                              used := s.mem.used + MemCache.Size(est, s.pending.value)),
                pending := Some(Obj(map[]))))
    ensures !MemCache.Fits(s.mem, est, s.pending.value) ==>
      Save(s, est).Threw? && Save(s, est).state == s &&
      (Save(s, est).error == CacheSizeExceeded || Save(s, est).error == NoCacheId)
  {
    var p := s.pending.value;
    assert KeyCount(p).Ok? && KeyCount(p).value != 0 by {
      var k :| k in p.fields;
      assert k in p.fields.Keys;
    }
  }

  // ------------------------------------------------------- createTables

  lemma DefaultNameIsLowerCase()
    ensures IsLowerCase(DefaultName) && Lower(DefaultName) == DefaultName
  {
    assert forall i :: 0 <= i < |DefaultName| ==> !IsUpper(DefaultName[i]);
    LowerOfLowerCase(DefaultName);
  }

  /** The `save` inside `_createDefault`: it writes the `default` document, or throws with nothing written. */
  lemma SaveOfDefaultDoc(db: Db, est: MemCache.Estimator)
    requires db.name != ""
    ensures var d1 := SetCacheName(db, Str(DefaultName)).state.(pending := Some(DefaultDoc(db.id)));
      var m := MemCache.SetItem(db.mem, est, DefaultName, DefaultDoc(db.id));
      && (m.Ok? ==> Save(d1, est) == Done(db.(name := DefaultName, pending := Some(Obj(map[])), mem := m.value)))
      && (m.Err? ==> Save(d1, est) == Threw(db.(name := DefaultName, pending := Some(DefaultDoc(db.id))), m.error))
  {
    DefaultNameIsLowerCase();
    var d1 := SetCacheName(db, Str(DefaultName)).state.(pending := Some(DefaultDoc(db.id)));
    assert d1 == db.(name := DefaultName, pending := Some(DefaultDoc(db.id)));
    assert KeyCount(DefaultDoc(db.id)).Ok? && KeyCount(DefaultDoc(db.id)).value != 0 by {
      assert Search in DefaultDoc(db.id).fields.Keys;
    }
  }

  /** Restoring the selected name after `default` has been written. */
  lemma RestoreName(db: Db, d2: Db)
    requires db.name != ""
    ensures SetCacheName(d2, Str(CacheName(db))) == Done(d2.(name := Lower(db.name)))
  {
    LowerIdempotent(db.name);
    assert |CacheName(db)| > 0;
    assert !Falsy(Str(CacheName(db)));
  }

  /** `_createDefault`: writes a fresh `default` document whatever was stored there, then restores the name. */
  function CreateDefault(db: Db, est: MemCache.Estimator): (r: Outcome<Db>)
    requires db.name != ""
    ensures var m := MemCache.SetItem(db.mem, est, DefaultName, DefaultDoc(db.id));
      && (m.Ok? ==> r == Done(db.(name := Lower(db.name), pending := Some(Obj(map[])), mem := m.value)))
      && (m.Err? ==> r == Threw(db.(name := DefaultName, pending := Some(DefaultDoc(db.id))), m.error))
  {
    SaveOfDefaultDoc(db, est);
    var current := CacheName(db);
    var d1 := SetCacheName(db, Str(DefaultName)).state;
    match Save(d1.(pending := Some(DefaultDoc(db.id))), est)
    case Threw(st, e) => Threw(st, e)
    case Done(d2) =>
      RestoreName(db, d2);
      SetCacheName(d2, Str(current))
  }

  /** What the second half of `createTables` writes, once `default` has been written. */
  lemma CreateTablesTail(db: Db, d: Db, est: MemCache.Estimator)
    requires db.name != ""
    requires MemCache.SetItem(db.mem, est, DefaultName, DefaultDoc(db.id)).Ok?
    requires d == db.(name := Lower(db.name), pending := Some(Obj(map[])),
                      mem := MemCache.SetItem(db.mem, est, DefaultName, DefaultDoc(db.id)).value)
    ensures var n := Lower(db.name);
      var doc := if n != DefaultName then UserDoc(db.id) else Arr([]);
      var r := Save(d.(pending := Some(doc)), est);
      var withDefault := db.mem.cache[DefaultName := DefaultDoc(db.id)];
      && (r.Threw? ==> r.error == CacheSizeExceeded || r.error == NoCacheId)
      && (r.Threw? ==> n != DefaultName && r.state == d.(pending := Some(UserDoc(db.id))))
      && (r.Done? ==>
          && r.state.name == n && r.state.id == db.id && r.state.saveAs == db.saveAs
          && r.state.mem.capacity == db.mem.capacity && r.state.mem.owner == db.mem.owner
          && (n == DefaultName ==>
                r.state.mem.cache == withDefault &&
                r.state.mem.used == db.mem.used + MemCache.Size(est, DefaultDoc(db.id)))
          && (n != DefaultName ==>
                r.state.mem.cache == withDefault[n := UserDoc(db.id)] &&
                r.state.mem.used == db.mem.used + MemCache.Size(est, DefaultDoc(db.id)) + MemCache.Size(est, UserDoc(db.id)))
          && Present(r.state) && r.state.name != "")
  {
    if Lower(db.name) != DefaultName {
      UserDocTail(db, d, est);
    } else {
      DefaultDocTail(db, d, est);
    }
  }

  /** For a namespace other than `default`, the user document is written after `default`. */
  lemma UserDocTail(db: Db, d: Db, est: MemCache.Estimator)
    requires db.name != "" && Lower(db.name) != DefaultName
    requires MemCache.SetItem(db.mem, est, DefaultName, DefaultDoc(db.id)).Ok?
    requires d == db.(name := Lower(db.name), pending := Some(Obj(map[])),
                      mem := MemCache.SetItem(db.mem, est, DefaultName, DefaultDoc(db.id)).value)
    ensures var n := Lower(db.name);
      var r := Save(d.(pending := Some(UserDoc(db.id))), est);
      && (r.Threw? ==> r.error == CacheSizeExceeded || r.error == NoCacheId)
      && (r.Threw? ==> r.state == d.(pending := Some(UserDoc(db.id))))
      && (r.Done? ==>
          && r.state.name == n && r.state.id == db.id && r.state.saveAs == db.saveAs
          && r.state.mem.capacity == db.mem.capacity && r.state.mem.owner == db.mem.owner
          && r.state.mem.cache == db.mem.cache[DefaultName := DefaultDoc(db.id)][n := UserDoc(db.id)]
          && r.state.mem.used == db.mem.used + MemCache.Size(est, DefaultDoc(db.id)) + MemCache.Size(est, UserDoc(db.id))
          && Present(r.state))
  {
    var n := Lower(db.name);
    LowerIdempotent(db.name);
    var m1 := MemCache.SetItem(db.mem, est, DefaultName, DefaultDoc(db.id)).value;
    var doc := UserDoc(db.id);
    assert KeyCount(doc).Ok? && KeyCount(doc).value != 0 by {
      assert Search in doc.fields.Keys;
    }
    var dd := d.(pending := Some(doc));
    var m2 := MemCache.SetItem(m1, est, n, doc);
    if m2.Ok? {
      var st := dd.(mem := m2.value, pending := Some(Obj(map[])));
      assert Save(dd, est) == Done(st);
      assert GetCacheByName(st, st.name) == Some(doc);
    } else {
      assert Save(dd, est) == Threw(dd, m2.error);
    }
  }

  /** For the `default` namespace itself, the empty array saved last writes nothing. */
  lemma DefaultDocTail(db: Db, d: Db, est: MemCache.Estimator)
    requires db.name != "" && Lower(db.name) == DefaultName
    requires MemCache.SetItem(db.mem, est, DefaultName, DefaultDoc(db.id)).Ok?
    requires d == db.(name := Lower(db.name), pending := Some(Obj(map[])),
                      mem := MemCache.SetItem(db.mem, est, DefaultName, DefaultDoc(db.id)).value)
    ensures var r := Save(d.(pending := Some(Arr([]))), est);
      && r.Done? && r.state.name == DefaultName && r.state.id == db.id && r.state.saveAs == db.saveAs
      && r.state.mem.capacity == db.mem.capacity && r.state.mem.owner == db.mem.owner
      && r.state.mem.cache == db.mem.cache[DefaultName := DefaultDoc(db.id)]
      && r.state.mem.used == db.mem.used + MemCache.Size(est, DefaultDoc(db.id))
      && Present(r.state)
  {
    DefaultNameIsLowerCase();
    var dd := d.(pending := Some(Arr([])));
    assert Save(dd, est) == Done(dd);
    assert GetCacheByName(dd, dd.name) == Some(DefaultDoc(db.id));
  }

  /**
    `createTables`: an empty name throws; an existing namespace is left alone;
    otherwise `default` is rewritten and, for any other name, the user document
    is written too.
   */
  function CreateTables(db: Db, est: MemCache.Estimator): (r: Outcome<Db>)
    ensures db.name == "" ==> r == Threw(db, EmptyCacheName)
    ensures db.name != "" && Present(db) ==> r == Done(db)
  {
    if db.name == "" then Threw(db, EmptyCacheName)
    else if Present(db) then Done(db)
    else
      match CreateDefault(db, est)
      case Threw(s, e) => Threw(s, e)
      case Done(d) =>
        var doc := if CacheName(d) != DefaultName then UserDoc(db.id) else Arr([]);
        Save(d.(pending := Some(doc)), est)
  }

  /**
    What `createTables` writes for a namespace that is not stored yet: the
    `default` document and, unless the namespace is `default`, the user
    document, each charged in full. It fails only for lack of room or of an
    owner id, and when it succeeds the namespace is present. When the `default`
    write fails, `default` stays selected with its document pending; when only
    the user document's write fails, `default` has already been rewritten and
    charged, the name is lower-cased and the user document stays pending.
   */
  lemma CreateTablesWrites(db: Db, est: MemCache.Estimator)
    requires db.name != "" && !Present(db)
    ensures var r := CreateTables(db, est);
      var n := Lower(db.name);
      var m := MemCache.SetItem(db.mem, est, DefaultName, DefaultDoc(db.id));
      var withDefault := db.mem.cache[DefaultName := DefaultDoc(db.id)];
      && (r.Threw? ==> r.error == CacheSizeExceeded || r.error == NoCacheId)
      && (m.Err? ==> r == Threw(db.(name := DefaultName, pending := Some(DefaultDoc(db.id))), m.error))
      && (r.Threw? && m.Ok? ==>
            n != DefaultName && r.state == db.(name := n, pending := Some(UserDoc(db.id)), mem := m.value))
      && (r.Done? ==>
          && r.state.name == n && r.state.id == db.id && r.state.saveAs == db.saveAs
          && r.state.mem.capacity == db.mem.capacity && r.state.mem.owner == db.mem.owner
          && (n == DefaultName ==>
                r.state.mem.cache == withDefault &&
                r.state.mem.used == db.mem.used + MemCache.Size(est, DefaultDoc(db.id)))
          && (n != DefaultName ==>
                r.state.mem.cache == withDefault[n := UserDoc(db.id)] &&
                r.state.mem.used == db.mem.used + MemCache.Size(est, DefaultDoc(db.id)) + MemCache.Size(est, UserDoc(db.id)))
          && Present(r.state) && r.state.name != "")
  {
    var m := MemCache.SetItem(db.mem, est, DefaultName, DefaultDoc(db.id));
    if m.Ok? {
      var d := db.(name := Lower(db.name), pending := Some(Obj(map[])), mem := m.value);
      assert CreateDefault(db, est) == Done(d);
      var doc := if Lower(db.name) != DefaultName then UserDoc(db.id) else Arr([]);
      assert CreateTables(db, est) == Save(d.(pending := Some(doc)), est);
      CreateTablesTail(db, d, est);
    } else {
      CreateTablesFailsEarly(db, est);
    }
  }

  /** When `default` cannot be written, `createTables` throws the cache's error. */
  lemma CreateTablesFailsEarly(db: Db, est: MemCache.Estimator)
    requires db.name != "" && !Present(db)
    requires MemCache.SetItem(db.mem, est, DefaultName, DefaultDoc(db.id)).Err?
    ensures CreateTables(db, est).Threw?
    ensures CreateTables(db, est).error == MemCache.SetItem(db.mem, est, DefaultName, DefaultDoc(db.id)).error
    ensures CreateTables(db, est).error == CacheSizeExceeded || CreateTables(db, est).error == NoCacheId
    ensures CreateTables(db, est).state == db.(name := DefaultName, pending := Some(DefaultDoc(db.id)))
  {
    var m := MemCache.SetItem(db.mem, est, DefaultName, DefaultDoc(db.id));
    assert !Falsy(DefaultDoc(db.id)) && DefaultName != "";
    assert m.error == CacheSizeExceeded || m.error == NoCacheId;
    assert CreateDefault(db, est) == Threw(db.(name := DefaultName, pending := Some(DefaultDoc(db.id))), m.error);
  }

  /** Creating tables again once they exist changes nothing. */
  lemma CreateTablesIdempotent(db: Db, est: MemCache.Estimator)
    requires db.name != "" && !Present(db)
    ensures CreateTables(db, est).Done? ==> CreateTables(CreateTables(db, est).state, est) == CreateTables(db, est)
  {
    CreateTablesWrites(db, est);
  }

  // ------------------------------------------------------- setItemToSave

  /** The tables a save target appends to, following the switch and its fall-through. */
  function TargetTables(saveAs: Json): (ts: seq<string>)
    ensures forall i, j :: 0 <= i < j < |ts| ==> ts[i] != ts[j]
  {
    if saveAs == Str(Search) then [Search]
    else if saveAs == Str(Favourites) then [Favourites]
    else if saveAs == Str(Ratings) then [Ratings]
    else if saveAs == Str(WatchList) then [WatchList]
    else if saveAs == Str(Authentication) then [Authentication]
    else if saveAs == Str(Profile) then [Profile]
    else if saveAs == Str(HomePage) then [HomePage]
    else if saveAs == Str(ApiCalls) then [ApiCalls, Movies, TvShows]
    else if saveAs == Str(Movies) then [Movies, TvShows]
    else if saveAs == Str(TvShows) then [TvShows]
    else []
  }

  /** `tables[t].push(item)`: a missing or non-array table has no `push`. */
  function Push(doc: Json, t: string, item: Json): (r: Result<Json>)
    ensures r.Ok? <==> IsArrayField(doc, t)
    ensures r.Err? ==> r.error == TypeError
    ensures r.Ok? ==> r.value.Obj? && r.value.fields.Keys == doc.fields.Keys
    ensures r.Ok? ==> r.value.fields[t] == Arr(doc.fields[t].elems + [item])
    ensures r.Ok? ==> forall u :: u in doc.fields && u != t ==> r.value.fields[u] == doc.fields[u]
  {
    if IsArrayField(doc, t) then Ok(Obj(doc.fields[t := Arr(doc.fields[t].elems + [item])])) else Err(TypeError)
  }

  /** The document with `item` appended to each listed table and every other field as it was. */
  ghost function AppendedTo(doc: Json, ts: seq<string>, item: Json): Json
    requires doc.Obj?
  {
    Obj(map u | u in doc.fields :: if u in ts && doc.fields[u].Arr? then Arr(doc.fields[u].elems + [item]) else doc.fields[u])
  }

  /** `doc` with `rec` appended to its table `t`. */
  function WithAppended(doc: Json, t: string, rec: Json): (r: Json)
    requires IsArrayField(doc, t)
    ensures IsArrayField(r, t) && r.fields.Keys == doc.fields.Keys
    ensures r.fields[t].elems == doc.fields[t].elems + [rec]
    ensures forall u :: u in doc.fields && u != t ==> r.fields[u] == doc.fields[u]
  {
    Obj(doc.fields[t := Arr(doc.fields[t].elems + [rec])])
  }

  /** `_saveItemToSpecifiedTable`: one push per table, stopping at the first that throws. */
  function PushAll(doc: Json, ts: seq<string>, item: Json): (r: Result<Json>)
    requires forall i, j :: 0 <= i < j < |ts| ==> ts[i] != ts[j]
    ensures r.Ok? <==> (ts == [] || doc.Obj?) && forall t :: t in ts ==> IsArrayField(doc, t)
    ensures r.Err? ==> r.error == TypeError
    ensures r.Ok? && ts != [] ==> r.value == AppendedTo(doc, ts, item)
    ensures r.Ok? && ts == [] ==> r.value == doc
    decreases |ts|
  {
    if ts == [] then Ok(doc)
    else
      match Push(doc, ts[0], item)
      case Err(e) => Err(e)
      case Ok(d1) =>
        var r := PushAll(d1, ts[1..], item);
        assert forall t :: t in ts[1..] ==> (IsArrayField(d1, t) <==> IsArrayField(doc, t));
        AppendedAfterPush(doc, ts, item);
        r
  }

  /** Pushing to the first table and then to the rest appends to all of them. */
  lemma AppendedAfterPush(doc: Json, ts: seq<string>, item: Json)
    requires ts != [] && IsArrayField(doc, ts[0])
    requires forall i, j :: 0 <= i < j < |ts| ==> ts[i] != ts[j]
    ensures var d1 := Push(doc, ts[0], item).value;
      && (ts[1..] != [] ==> AppendedTo(d1, ts[1..], item) == AppendedTo(doc, ts, item))
      && (ts[1..] == [] ==> d1 == AppendedTo(doc, ts, item))
  {
    var d1 := Push(doc, ts[0], item).value;
    assert ts[0] !in ts[1..];
    assert forall u :: u in ts <==> u == ts[0] || u in ts[1..];
    if ts[1..] != [] {
      assert AppendedTo(d1, ts[1..], item).fields == AppendedTo(doc, ts, item).fields;
    } else {
      assert d1.fields == AppendedTo(doc, ts, item).fields;
    }
  }

  /** The stored document of the selected namespace, when there is one. */
  function Stored(db: Db): Option<Json> {
    GetCacheByName(db, db.name)
  }

  /**
    `setItemToSave(key, item)`: without a save target or a stored namespace
    nothing happens; otherwise the record is appended to the target's tables in
    a copy of the stored document, which becomes the pending document. Only
    the pending document changes.
   */
  function SetItemToSave(db: Db, key: string, item: Json, now: int): (r: Outcome<Db>)
    ensures Falsy(db.saveAs) || !Present(db) ==> r == Done(db)
    ensures r.Threw? ==> r.state == db && r.error == TypeError
    ensures r.state.mem == db.mem && r.state.name == db.name && r.state.saveAs == db.saveAs && r.state.id == db.id
  {
    if Falsy(db.saveAs) then Done(db)
    else
      match GetCacheByName(db, db.name)
      case None => Done(db)
      case Some(tables) =>
        if Falsy(tables) then Done(db)
        else
          var rec := NewRecord(Lower(key), item, now, db.id);
          match PushAll(tables, TargetTables(db.saveAs), rec)
          case Err(e) => Threw(db, e)
          case Ok(t) => Done(db.(pending := Some(t)))
  }

  /**
    With a save target and a stored namespace, `setItemToSave` succeeds exactly
    when every table the target selects is an array of the document, and the
    pending document is the stored one with the record appended to each.
   */
  lemma SetItemToSaveAppends(db: Db, key: string, item: Json, now: int)
    requires !Falsy(db.saveAs) && Present(db)
    ensures var doc := Stored(db).value;
      var ts := TargetTables(db.saveAs);
      var rec := NewRecord(Lower(key), item, now, db.id);
      var r := SetItemToSave(db, key, item, now);
      && (r.Done? <==> (ts == [] || doc.Obj?) && forall t :: t in ts ==> IsArrayField(doc, t))
      && (r.Done? && ts != [] ==> r.state.pending == Some(AppendedTo(doc, ts, rec)))
      && (r.Done? && ts == [] ==> r.state.pending == Some(doc))
  {
  }

  /** The save targets whose switch case appends to one table and stops. */
  predicate SingleTarget(t: string) {
    t == Search || t == Favourites || t == Ratings || t == WatchList ||
    t == Authentication || t == Profile || t == HomePage || t == TvShows
  }

  /** For a single-table target, the record lands at the end of that table and nothing else changes. */
  lemma SingleTargetAppends(db: Db, t: string, key: string, item: Json, now: int)
    requires SingleTarget(t) && db.saveAs == Str(t) && Present(db)
    requires IsArrayField(Stored(db).value, t)
    ensures var doc := Stored(db).value;
      var r := SetItemToSave(db, key, item, now);
      r.Done? && r.state.pending == Some(WithAppended(doc, t, NewRecord(Lower(key), item, now, db.id)))
  {
    var doc := Stored(db).value;
    var rec := NewRecord(Lower(key), item, now, db.id);
    SingleTargetTables(t);
    SetItemToSaveAppends(db, key, item, now);
    AppendedToOne(doc, t, rec);
  }

  lemma SingleTargetTables(t: string)
    requires SingleTarget(t)
    ensures TargetTables(Str(t)) == [t]
  {
  }

  lemma AppendedToOne(doc: Json, t: string, rec: Json)
    requires IsArrayField(doc, t)
    ensures AppendedTo(doc, [t], rec) == WithAppended(doc, t, rec)
  {
    assert AppendedTo(doc, [t], rec).fields == WithAppended(doc, t, rec).fields;
  }

  /** Appending through a single-table target to a namespace selected by its lower-case name. */
  lemma AppendToNamespace(db: Db, n: string, t: string, key: string, item: Json, now: int)
    requires n != "" && Lower(n) == n
    requires SingleTarget(t)
    requires n in db.mem.cache && IsArrayField(db.mem.cache[n], t)
    ensures var doc := db.mem.cache[n];
      var r := SetItemToSave(SetSaveAs(db.(name := n), Str(t)), key, item, now);
      var rec := NewRecord(Lower(key), item, now, db.id);
      && r.Done? && r.state.name == n && r.state.saveAs == Str(t) && r.state.id == db.id
      && r.state.mem == db.mem && r.state.pending == Some(WithAppended(doc, t, rec))
  {
    var s2 := SetSaveAs(db.(name := n), Str(t));
    assert Stored(s2) == Some(db.mem.cache[n]);
    SingleTargetAppends(s2, t, key, item, now);
  }

  /**
    The switch falls through from `API_CALLS` to `movies` to `tvShows`: an
    `API_CALLS` target appends to all three tables, a `movies` target to the
    last two, provided each is a table of the document.
   */
  lemma FallThroughAppends(db: Db, key: string, item: Json, now: int)
    requires db.saveAs == Str(ApiCalls) || db.saveAs == Str(Movies)
    requires Present(db)
    ensures var doc := Stored(db).value;
      var ts := if db.saveAs == Str(ApiCalls) then [ApiCalls, Movies, TvShows] else [Movies, TvShows];
      var r := SetItemToSave(db, key, item, now);
      var rec := NewRecord(Lower(key), item, now, db.id);
      && (r.Done? <==> forall t :: t in ts ==> IsArrayField(doc, t))
      && (r.Done? ==> r.state.pending == Some(AppendedTo(doc, ts, rec)))
  {
    var ts := if db.saveAs == Str(ApiCalls) then [ApiCalls, Movies, TvShows] else [Movies, TvShows];
    assert TargetTables(db.saveAs) == ts;
    SetItemToSaveAppends(db, key, item, now);
  }

  /** No namespace document has an `API_CALLS` table, so that target always throws on them. */
  lemma ApiCallsThrowsOnCreatedNamespaces(db: Db, key: string, item: Json, now: int)
    requires db.saveAs == Str(ApiCalls) && Present(db)
    requires Stored(db).value == UserDoc(db.id) || Stored(db).value == DefaultDoc(db.id)
    ensures SetItemToSave(db, key, item, now) == Threw(db, TypeError)
  {
    assert TargetTables(db.saveAs) == [ApiCalls, Movies, TvShows];
    assert !IsArrayField(Stored(db).value, ApiCalls);
    SetItemToSaveAppends(db, key, item, now);
  }

  /** A `keyWords` target matches no case: the stored document becomes pending unchanged. */
  lemma KeyWordsTargetAppendsNothing(db: Db, key: string, item: Json, now: int)
    requires db.saveAs == Str(KeyWords) && Present(db)
    ensures SetItemToSave(db, key, item, now) == Done(db.(pending := Stored(db)))
  {
    assert TargetTables(db.saveAs) == [];
    SetItemToSaveAppends(db, key, item, now);
  }

  /**
    Records appended through a database built by `New` carry its id, so the
    store accepts removing them again: the table loses that record and the
    counter its size.
   */
  lemma AppendedRecordIsRemovable(db: Db, est: MemCache.Estimator, table: seq<Json>, key: string, item: Json, now: int)
    requires db.mem.owner == Some(db.id)
    ensures var rec := NewRecord(Lower(key), item, now, db.id);
      MemCache.RemoveTableItemByIndex(db.mem, est, |table|, Arr(table + [rec])) ==
        Ok((db.mem.(used := db.mem.used - MemCache.Size(est, rec)), Arr(table)))
  {
    var rec := NewRecord(Lower(key), item, now, db.id);
    var t := table + [rec];
    assert t[|table|] == rec && !Falsy(rec);
    assert MemCache.ParentIdMatches(rec, db.mem.owner);
    assert t[..|table|] + t[|table| + 1..] == table;
  }

  // ------------------------------------------------------------- lookups

  ghost predicate HasKeyAt(entries: seq<Json>, key: string, i: int) {
    0 <= i < |entries| && HasOwn(entries[i], key) == Ok(true)
  }

  ghost predicate NoKeyBefore(entries: seq<Json>, key: string, i: int) {
    forall j :: 0 <= j < i && j < |entries| ==> HasOwn(entries[j], key) == Ok(false)
  }

  /** The index of the first record that has the key or is not an object, or `|entries|` when there is none. */
  function FirstKey(entries: seq<Json>, key: string): (i: nat)
    ensures i <= |entries| && NoKeyBefore(entries, key, i)
    ensures i < |entries| ==> HasOwn(entries[i], key) != Ok(false)
  {
    if entries == [] then 0
    else if HasOwn(entries[0], key) != Ok(false) then 0
    else 1 + FirstKey(entries[1..], key)
  }

  /**
    The scan of `isSearchTermInCache` over the records of a table: the first
    record that has the key decides, by the success of reading its element
    `0`, and a record before it that is not an object throws.
   */
  function FindTerm(entries: seq<Json>, key: string): (r: Result<(bool, Option<Json>)>)
    ensures var i := FirstKey(entries, key);
      && (i == |entries| ==> r == Ok((false, Some(Obj(map[])))))
      && (i < |entries| && HasOwn(entries[i], key).Err? ==> r == Err(TypeError))
      && (i < |entries| && HasOwn(entries[i], key) == Ok(true) ==>
            var first := Read(Get(entries[i], key), "0");
            (first.Ok? ==> r == Ok((true, first.value))) && (first.Err? ==> r == Err(first.error)))
    ensures r == Ok((false, Some(Obj(map[])))) <==> NoKeyBefore(entries, key, |entries|)
    ensures r.Ok? && r.value.0 ==>
      exists i :: HasKeyAt(entries, key, i) && NoKeyBefore(entries, key, i) &&
                  Read(Get(entries[i], key), "0") == Ok(r.value.1)
    ensures r.Ok? && !r.value.0 ==> r.value.1 == Some(Obj(map[]))
  {
    if entries == [] then Ok((false, Some(Obj(map[]))))
    else
      match HasOwn(entries[0], key)
      case Err(e) => Err(e)
      case Ok(found) =>
        if found then
          match Read(Get(entries[0], key), "0")
          case Err(e) => Err(e)
          case Ok(p) =>
            assert HasKeyAt(entries, key, 0);
            Ok((true, p))
        else
          var r := FindTerm(entries[1..], key);
          if r.Ok? && r.value.0 then
            assert exists i :: HasKeyAt(entries, key, i) && NoKeyBefore(entries, key, i) &&
                               Read(Get(entries[i], key), "0") == Ok(r.value.1) by {
              var i :| HasKeyAt(entries[1..], key, i) && NoKeyBefore(entries[1..], key, i) &&
                       Read(Get(entries[1..][i], key), "0") == Ok(r.value.1);
              assert HasKeyAt(entries, key, i + 1) && NoKeyBefore(entries, key, i + 1);
            }
            r
          else
            r
  }

  /**
    `isSearchTermInCache(term, table)`: the table must be an array; the result
    pairs `true` with `entry[term][0]` of the first record holding the
    lower-cased term, or `false` with `{}`.
   */
  function IsSearchTermInCache(term: string, table: Json): (r: Result<(bool, Option<Json>)>)
    ensures !table.Arr? ==> r == Err(NotAnArray)
    ensures table.Arr? ==> r == FindTerm(table.elems, Lower(term))
  {
    if !table.Arr? then Err(NotAnArray) else FindTerm(table.elems, Lower(term))
  }

  /**
    A record appended under a term is found by a later lookup of that term in
    the table, with the first element of its payload, provided no earlier
    record holds the term.
   */
  lemma {:induction false} AppendedTermIsFound(entries: seq<Json>, term: string, payload: seq<Json>, now: int, id: string)
    requires payload != []
    requires NoKeyBefore(entries, Lower(term), |entries|)
    ensures IsSearchTermInCache(term, Arr(entries + [NewRecord(Lower(term), Arr(payload), now, id)])) ==
      Ok((true, Some(payload[0])))
  {
    var key := Lower(term);
    var rec := NewRecord(key, Arr(payload), now, id);
    FoundAfterMisses(entries, rec, key);
    FoundInRecord(rec, key, payload);
  }

  /** A lone record holding the key is found, with the first element of its payload. */
  lemma FoundInRecord(rec: Json, key: string, payload: seq<Json>)
    requires payload != [] && rec.Obj? && Get(rec, key) == Some(Arr(payload))
    ensures HasOwn(rec, key) == Ok(true)
    ensures FindTerm([rec], key) == Ok((true, Some(payload[0])))
  {
    ZeroIndex();
    assert Read(Get(rec, key), "0") == Ok(Some(payload[0]));
  }

  lemma {:induction false} FoundAfterMisses(entries: seq<Json>, rec: Json, key: string)
    requires NoKeyBefore(entries, key, |entries|)
    requires HasOwn(rec, key) == Ok(true)
    ensures FindTerm(entries + [rec], key) == FindTerm([rec], key)
    decreases |entries|
  {
    if entries != [] {
      assert (entries + [rec])[1..] == entries[1..] + [rec];
      assert HasOwn(entries[0], key) == Ok(false);
      FoundAfterMisses(entries[1..], rec, key);
    }
  }

  /**
    The `authentication` property of a raw stored value. `setItem` stores
    `JSON.stringify(value)` (utils/memCache.js:57), and a string has no
    `authentication` property, so the read is `undefined` for every key.
   */
  function RawAuthentication(key: string): Option<Json> {
    None
  }

  /** The inner loop of `getByEmail` over the entries of one `authentication` array. */
  function FindEmail(entries: seq<Json>, email: string): (r: Result<Option<Json>>)
    ensures r.Ok? && r.value.Some? ==> r.value.value in entries
  {
    if entries == [] then Ok(None)
    else
      var addr := if entries[0] == Null then None else Get(entries[0], "email");
      if !(addr.Some? && addr.value.Str?) then Err(TypeError)
      else if Lower(email) == Lower(addr.value.s) then Ok(Some(entries[0]))
      else
        var r := FindEmail(entries[1..], email);
        r
  }

  /**
    The outer loop of `getByEmail`: every stored key, in some order, with
    `authentication` telling what `value.authentication` is for the value stored
    under a key.
   */
  ghost function ScanNamespaces(keys: set<string>, authentication: string -> Option<Json>, email: string): (r: Result<Option<Json>>)
    ensures r.Ok? && r.value.Some? ==>
      exists k :: k in keys && authentication(k).Some? && authentication(k).value.Arr? &&
                  r.value.value in authentication(k).value.elems
    ensures (forall k :: k in keys ==> authentication(k).None?) ==> r == Ok(None)
    decreases keys
  {
    if keys == {} then Ok(None)
    else
      var k :| k in keys;
      var rest := ScanNamespaces(keys - {k}, authentication, email);
      match authentication(k)
      case Some(a) =>
        if a.Arr? then
          match FindEmail(a.elems, email)
          case Ok(None) => rest
          case other => other
        else rest
      case None => rest
  }

  /**
    `getByEmail(email)`: the raw values are strings, so no user is ever found.
    Here `Ok(None)` stands for the `return null` at the end of the scan (and
    the inner scan's "no match yet"); elsewhere `None` is `undefined`.
   */
  ghost function GetByEmail(db: Db, email: string): (r: Result<Option<Json>>)
    ensures r == Ok(None)
  {
    ScanNamespaces(db.mem.cache.Keys, RawAuthentication, email)
  }
}
