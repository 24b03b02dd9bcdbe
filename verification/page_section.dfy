/**
  `saveDynamicPageSection`: stores the title and description of a request
  body as a record of the `homePage` table of a namespace.
 */
module PageSection {
  import opened JsValues
  import MemCache
  import MemoryDb

  /**
    `[{ title, description }]`'s one element as it is stored: a property the
    body does not have is `undefined` and is dropped by the JSON round trip.
   */
  function SectionItem(body: Json): (r: Json)
    ensures r.Obj? && r.fields.Keys <= {"title", "description"}
  {
    var t := Get(body, "title");
    var d := Get(body, "description");
    var withTitle: map<string, Json> := if t.Some? then map["title" := t.value] else map[];
    Obj(if d.Some? then withTitle["description" := d.value] else withTitle)
  }

  /** The stored item holds exactly the title and description the body has. */
  lemma SectionItemFields(body: Json)
    ensures var r := SectionItem(body);
      && ("title" in r.fields <==> Get(body, "title").Some?)
      && ("description" in r.fields <==> Get(body, "description").Some?)
      && (forall f :: f in r.fields ==> Get(body, f) == Some(r.fields[f]))
  {
  }

  /**
    `saveDynamicPageSection(req, sectionName, tableName, db)`: destructuring a
    missing body throws; otherwise the namespace is selected, the save target
    becomes `homePage`, the item is appended under `sectionName` and the
    pending document is saved. Each of the last steps can throw.
   */
  function SaveDynamicPageSection(db: MemoryDb.Db, est: MemCache.Estimator, body: Option<Json>,
                                  sectionName: string, tableName: Json, now: int): (r: Outcome<MemoryDb.Db>)
    ensures Nullish(body) ==> r == Threw(db, TypeError)
    ensures !Nullish(body) && !Falsy(tableName) && !tableName.Str? ==> r == Threw(db, TypeError)
    ensures r.Done? ==> r.state.saveAs == Str(MemoryDb.HomePage) && r.state.id == db.id
    ensures r.Done? && tableName.Str? && tableName.s != "" ==> r.state.name == Lower(tableName.s)
    ensures r.Done? && Falsy(tableName) ==> r.state.name == db.name
  {
    if Nullish(body) then Threw(db, TypeError)
    else
      match MemoryDb.SetCacheName(db, tableName)
      case Threw(s1, e) => Threw(s1, e)
      case Done(s1) =>
        var s2 := MemoryDb.SetSaveAs(s1, Str(MemoryDb.HomePage));
        match MemoryDb.SetItemToSave(s2, sectionName, Arr([SectionItem(body.value)]), now)
        case Threw(s3, e) => Threw(s3, e)
        case Done(s3) => MemoryDb.Save(s3, est)
  }

  /**
    Saving a section into a namespace whose document has a `homePage` table
    appends one record holding the item to that table. When the cache has
    room for the document it is written back under the namespace, charged in
    full, and nothing is left pending; otherwise the cache's error is thrown
    and the cache is as it was.
   */
  lemma SectionIsAppended(db: MemoryDb.Db, est: MemCache.Estimator, body: Json, sectionName: string,
                          table: string, now: int)
    requires body != Null && table != ""
    requires Lower(table) in db.mem.cache && IsArrayField(db.mem.cache[Lower(table)], MemoryDb.HomePage)
    ensures var n := Lower(table);
      var rec := MemoryDb.NewRecord(Lower(sectionName), Arr([SectionItem(body)]), now, db.id);
      var doc := MemoryDb.WithAppended(db.mem.cache[n], MemoryDb.HomePage, rec);
      var r := SaveDynamicPageSection(db, est, Some(body), sectionName, Str(table), now);
      && r.state.name == n
      && (MemCache.Fits(db.mem, est, doc) ==>
            && r.Done? && r.state.pending == Some(Obj(map[]))
            && r.state.mem.cache == db.mem.cache[n := doc]
            && r.state.mem.used == db.mem.used + MemCache.Size(est, doc))
      && (!MemCache.Fits(db.mem, est, doc) ==>
            && r.Threw? && r.state.mem == db.mem && r.state.pending == Some(doc)
            && (r.error == CacheSizeExceeded || r.error == NoCacheId))
  {
    var n := Lower(table);
    var doc := MemoryDb.WithAppended(db.mem.cache[n], MemoryDb.HomePage,
                 MemoryDb.NewRecord(Lower(sectionName), Arr([SectionItem(body)]), now, db.id));
    SectionIsSaveOfAppend(db, est, body, sectionName, table, now);
    LowerIdempotent(table);
    MemoryDb.SaveWrites(db.(name := n, saveAs := Str(MemoryDb.HomePage), pending := Some(doc)), est);
  }

  /** Before the save, the appended document is pending under the selected namespace. */
  lemma SectionIsSaveOfAppend(db: MemoryDb.Db, est: MemCache.Estimator, body: Json, sectionName: string,
                              table: string, now: int)
    requires body != Null && table != ""
    requires Lower(table) in db.mem.cache && IsArrayField(db.mem.cache[Lower(table)], MemoryDb.HomePage)
    ensures var n := Lower(table);
      var doc := MemoryDb.WithAppended(db.mem.cache[n], MemoryDb.HomePage,
                   MemoryDb.NewRecord(Lower(sectionName), Arr([SectionItem(body)]), now, db.id));
      SaveDynamicPageSection(db, est, Some(body), sectionName, Str(table), now) ==
        MemoryDb.Save(db.(name := n, saveAs := Str(MemoryDb.HomePage), pending := Some(doc)), est)
  {
    var n := Lower(table);
    var item := Arr([SectionItem(body)]);
    var doc := MemoryDb.WithAppended(db.mem.cache[n], MemoryDb.HomePage,
                 MemoryDb.NewRecord(Lower(sectionName), item, now, db.id));
    LowerIdempotent(table);
    var r3 := MemoryDb.SetItemToSave(MemoryDb.SetSaveAs(db.(name := n), Str(MemoryDb.HomePage)), sectionName, item, now);
    MemoryDb.AppendToNamespace(db, n, MemoryDb.HomePage, sectionName, item, now);
    assert r3 == Done(db.(name := n, saveAs := Str(MemoryDb.HomePage), pending := Some(doc)));
    assert MemoryDb.SetCacheName(db, Str(table)) == Done(db.(name := n));
  }
}
