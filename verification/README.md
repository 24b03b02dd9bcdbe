# In-memory movie database, modelled in Dafny

This project models the server-side in-memory database of a small movie web
application, and the small clients built on it.

The database has two layers:

- **`MemoryCache`** (`MemCache`). A flat map from key to serialised value, with:
  - a byte budget;
  - a used-space counter;
  - an owner id that must be set before any write;
  - an ownership-checked removal of one record from a table.
- **`MemoryDB`** (`MemoryDb`). It sits on the cache and adds:
  - namespaces, whose names are lower-cased;
  - a fixed table schema for the shared `default` namespace and for user namespaces;
  - a save target that chooses the tables a record is appended to;
  - timestamped records tagged with the owner id;
  - `createTables`;
  - lookups by search term and by e-mail.

On top of it:

- **Cache-aside fetch** (`FetchHelper`). `fetchOrUseCache` looks a term up in a table and calls the remote API only on a miss. `handleFetchResponse` persists each response into the session user's namespace.
- **Home-page sections** (`PageSection`). `saveDynamicPageSection` appends a title and a description to the `homePage` table.
- **Users** (`UserAccount`). `User.createNewUser`, the setters, the `count*` methods, `save` and `setDataFromCache`.
- **Movie lookup** (`MovieLookup`). `Movie` finds a film by id under a category's table.
- **Password rules** (`PasswordStrength`). The character-class checks of `PasswordStrengthChecker`, `checkPasswordStrength` and `isValid`.

`JsValues` holds the JavaScript values the code handles:

- `Json` for parsed values;
- `Option` for "may be `undefined`";
- `Result` for "may throw";
- `Outcome` for a call on a mutable object that can throw after it has changed the object;
- truthiness, ASCII `toLowerCase`, property reads and `String(v)`.

Every mutable object is a value here. A method call becomes a function from the old object to the new one (and the value returned).

Abstractions:

- **Size estimator.** `estimateObjectSize` is an `Estimator` parameter. `Size` is 0 for a falsy value. `MemCache.Fits` says a value passes `setItem`'s budget and owner checks; every lemma about a write states both outcomes, the write when the document fits and the thrown (or swallowed) cache error when it does not.
- **JSON round trip.** Values are stored in parsed form, and the JSON round trip is the identity.
- **Outside values.** The UUID, the clock (`now`, `clock`), the formatted join date (`joined`) and `fetch` (`remote`, one answer per call) are all parameters.

Behaviours of the code that the model keeps and a reader may not expect:

- **`removeItem` double estimate.** `removeItem` does not give back the size of the removed entry. It estimates the stored string, then passes that number to `_returnRemovedItemSpace`, which estimates it again (utils/memCache.js:73-75, 102-105). `MemCache.Returned` is that amount, and `MemCache.PutThenRemoveDrift` shows that a write followed by a removal moves the counter by `Size` − `Returned`.
- **`setSize` and the budget.** `setSize` can shrink the budget below the used space, so "used ≤ budget" does not always hold (`MemCache.SetSizeCanBreakBounded`).
- **Overwrites.** An overwrite charges the new size without taking back the old one (`MemCache.OverwriteChargesTwice`).
- **No eviction.** `_isLocalStorageAtCapacity` always answers false.
- **Appending and saving are separate.** An append only prepares the pending document. `save` writes it.
- **Stale pending document.** `setItemToSave` returns early, leaving `_cache` as it was, when there is no save target or the selected namespace is not stored (utils/cache.js:127-135). The `save` that follows in `handleFetchResponse` (utils/fetchHelper.js:28-33) and `saveDynamicPageSection` (utils/pageSectionService.js:22-23) then writes whatever an earlier failed save left pending, under the newly selected name (`MemoryDb.SaveWrites`).
- **Default namespace rewritten.** Creating any new namespace rewrites the `default` document.
- **`keyWords` matches nothing.** `keyWords` is a table of user namespaces, but no save type selects it (`MemoryDb.KeyWordsTargetAppendsNothing`).
- **Fall-through.** The `API_CALLS` and `movies` targets fall through to the tables below them.
- **`getByEmail` never finds.** It reads `authentication` off the raw stored strings, so it never finds anyone.
- **Double fetch.** On a miss, `fetchOrUseCache` fetches and stores twice when the first call succeeds. A non-ok first response ends in a `TypeError`: the code sets `.error` on the `undefined` that `handleFetchResponse` returned.
- **Save rebinds the user.** `User.save` re-runs `createNewUser` with the public `username`, which no setter changes. The returned user is therefore bound to the `default` namespace.
- **`keywords` versus `keyWords`.** `setDataFromCache` reads `keywords` while the table is named `keyWords`.

## Model

| member | source | states |
|---|---|---|
| JsValues.Lower | utils/cache.js:75 | `toLowerCase` keeps the length and leaves no upper-case letter |
| JsValues.LowerChar | utils/cache.js:75 | a lower-cased character is not upper-case, and a character that is not upper-case is unchanged |
| JsValues.LowerAt | utils/cache.js:75 | lower-casing works character by character |
| JsValues.LowerOfLowerCase | utils/cache.js:65-67 | a name that is already lower-case is its own lower-cased form |
| JsValues.LowerIdempotent | utils/cache.js:65-67 | lower-casing twice equals lower-casing once, so `cacheName` of a stored name is stable |
| JsValues.Read | models/movie.js:60 | reading a property throws exactly when the receiver is `null` or `undefined` |
| JsValues.HasOwn | utils/cache.js:103 | the `in` operator answers only for objects and arrays (it throws otherwise), and a key it finds can be read |
| JsValues.ZeroIndex | utils/cache.js:104 | the property name "0" denotes the first element |
| JsValues.NatTextIsCanonical | models/movie.js:63 | the decimal text of a natural number is a canonical numeral that reads back as the number |
| JsValues.JsonText | models/movie.js:63 | `String(v)` of a string is the string, and of a number is its decimal text (after `-` when negative), which reads back as the number |
| JsValues.Text | models/movie.js:63 | `String(undefined)` is "undefined" and `String(null)` is "null", the same texts as those strings; a string is its own text |
| MemCache.ToMB | utils/memCache.js:149-152 | the megabyte figure times 1024·1024 is the available space |
| MemCache.Size | utils/memCache.js:184-197 | a falsy value costs nothing, any other the estimator's figure |
| MemCache.Returned | utils/memCache.js:102-105 | what a removal gives back is the estimate of the number that estimates the stored string, and 0 when that number is 0 |
| MemCache.AvailableSpace | utils/memCache.js:133-135 | the available space is the budget minus the used space, and is non-negative exactly while used ≤ budget |
| MemCache.GettersFollowWrites | utils/memCache.js:133-143 | a write moves its value's size from the available to the used space; a refused write of a non-empty value lacked room or an owner; a removal moves the returned amount back; neither changes the budget |
| MemCache.New | utils/memCache.js:12-18 | a new cache has budget sizeInMB·1024·1024, or 5·1024·1024 when the size is omitted; nothing used, all of it available, no entries and no owner |
| MemCache.SetId | utils/memCache.js:20-22 | only the owner id changes |
| MemCache.GetItem | utils/memCache.js:30-37 | succeeds exactly for a stored key, returning its value, and otherwise fails naming the key |
| MemCache.SetItem | utils/memCache.js:45-59 | rejects an empty key or falsy value, then a write over budget, then a missing owner, in that order; otherwise stores the value and charges exactly its size, keeping used ≤ budget |
| MemCache.RemoveItem | utils/memCache.js:66-76 | succeeds exactly for a stored key, deletes only that key, and subtracts the estimate of the number that estimated its stored string |
| MemCache.RemoveTableItemByIndex | utils/memCache.js:78-100 | rejects a non-array; leaves everything alone for a missing or falsy entry; refuses an entry of another owner; otherwise removes exactly that index and gives back its size |
| MemCache.SetSize | utils/memCache.js:112-127 | accepts exactly the positive integers up to the current budget in MB, so the budget never grows; the entries and the counter are untouched |
| MemCache.SetThenGet | utils/memCache.js:30-59 | after a successful write the key reads back the value and every other key reads as before |
| MemCache.OverwriteChargesTwice | utils/memCache.js:49-58 | writing a key twice charges both sizes though only the second value stays |
| MemCache.PutThenRemoveDrift | utils/memCache.js:57-75 | a write then a removal of the same key removes the key and leaves every other entry as before (so a key not stored before leaves the entries exactly as before), and moves the counter by the value's size minus the returned amount |
| MemCache.RemovalsPreserveBounded | utils/memCache.js:66-106 | both removals keep used ≤ budget |
| MemCache.SetSizeCanBreakBounded | utils/memCache.js:112-127 | shrinking the budget can leave more used than the budget allows |
| MemoryDb.UserDocSchema | utils/cache.js:266-279 | a user namespace holds exactly the nine empty tables and `parentId` set to the owner id |
| MemoryDb.DefaultDocSchema | utils/cache.js:298-305 | `default` holds exactly the four empty tables `searchTerms`, `movies`, `tvShows`, `homePage` and `parentId` |
| MemoryDb.NewRecord | utils/cache.js:141 | a record has exactly three keys: the item under its key, `timeStamp` holding `now` and `parentID` holding the owner id |
| MemoryDb.New | utils/cache.js:35-52 | construction fails on a backing cache that is not an object; otherwise the cache's owner becomes the database's id, the name is the given one or "Default" when omitted (read back as `default`), and the entries, the used space and the budget are kept |
| MemoryDb.CacheName | utils/cache.js:65-67 | the name read back is lower-case, has the stored name's length, and equals the name when it was lower-case already |
| MemoryDb.SetCacheName | utils/cache.js:74-77 | a falsy name changes nothing; a non-empty string becomes the lower-cased name; it throws, changing nothing, exactly for a truthy name that is not a string |
| MemoryDb.Reset | utils/cache.js:239-242 | only the selected name changes |
| MemoryDb.SelectNamespace | utils/fetchHelper.js:19-26 | `reset` then `setCacheName` selects the lower-cased given name, or `default` when none is given; a name of the wrong type throws with `default` selected |
| MemoryDb.NamespaceIsLowerCase | utils/fetchHelper.js:19-26 | the selected namespace is non-empty and lower-case |
| MemoryDb.SetSaveAs | utils/cache.js:115-117 | only the save target changes |
| MemoryDb.GetCacheByName | utils/cache.js:220-227 | answers exactly when the lower-cased name is stored, with its document |
| MemoryDb.GetDefaultCache | utils/cache.js:230-232 | answers exactly when `default` is stored, with its document |
| MemoryDb.MaximumSize | utils/cache.js:342-344 | is the cache's budget |
| MemoryDb.RemainingSpace | utils/cache.js:352-354 | is the budget minus the used space |
| MemoryDb.Save | utils/cache.js:204-212 | no pending document throws; an empty one changes nothing; otherwise the document is written under the lower-cased name and the pending document is cleared, or the cache's error is thrown with nothing changed |
| MemoryDb.SaveWrites | utils/cache.js:204-212 | a non-empty pending document that fits is written under the name, charged in full, and the pending document is cleared; one that does not fit throws the cache's room or owner error with nothing changed |
| MemoryDb.SaveOfDefaultDoc | utils/cache.js:293-307 | writing the `default` document writes it under `default` or fails with the cache's error |
| MemoryDb.RestoreName | utils/cache.js:295-308 | restoring the remembered name selects the original name, lower-cased |
| MemoryDb.CreateDefault | utils/cache.js:293-309 | `_createDefault` rewrites `default` and reselects the original name; on failure it throws with `default` still selected |
| MemoryDb.CreateTablesTail | utils/cache.js:264-285 | after `default` is written, the user document (or nothing, for `default` itself) is saved, failing only for room or owner, and only for a user namespace, which then keeps the user document pending after `default` was written |
| MemoryDb.UserDocTail | utils/cache.js:267-285 | for a user namespace the user document is written after `default` and both are charged; if that second write fails, the database is left with the name lower-cased, `default` rewritten and charged, and the user document pending |
| MemoryDb.DefaultDocTail | utils/cache.js:264-285 | for `default` itself the final save writes nothing |
| MemoryDb.CreateTables | utils/cache.js:251-262 | an empty name throws; an existing namespace is left alone |
| MemoryDb.CreateTablesWrites | utils/cache.js:251-309 | for a new namespace `default` is rewritten and, for any other name, the user document is written; both are charged in full; the only failures are lack of room or of an owner; afterwards the namespace is present. A failed `default` write leaves `default` selected with its document pending; a failed user-document write leaves `default` rewritten and charged, the name lower-cased and the user document pending |
| MemoryDb.CreateTablesFailsEarly | utils/cache.js:251-309 | when `default` cannot be written, `createTables` throws the cache's room or owner error, leaving `default` selected with its document pending |
| MemoryDb.CreateTablesIdempotent | utils/cache.js:251-262 | creating tables a second time changes nothing |
| MemoryDb.TargetTables | utils/cache.js:164-196 | the tables a save target appends to are distinct |
| MemoryDb.Push | utils/cache.js:164-196 | pushing works exactly on an array-valued table, adding the item at its end and changing no other table |
| MemoryDb.WithAppended | utils/cache.js:164-196 | appending keeps the table set, adds the record at the end of the table and leaves every other field as it was |
| MemoryDb.PushAll | utils/cache.js:164-199 | pushing to several tables succeeds exactly when each is an array-valued table, and then appends to each of them |
| MemoryDb.AppendedAfterPush | utils/cache.js:164-199 | a push to the first table followed by pushes to the rest appends to every listed table |
| MemoryDb.SetItemToSave | utils/cache.js:125-157 | with no save target or no stored namespace nothing happens; failures are type errors that change nothing; the cache, name and target never change |
| MemoryDb.SetItemToSaveAppends | utils/cache.js:125-199 | the pending document is the stored one with the record appended to each target table, and the call succeeds exactly when those tables are arrays |
| MemoryDb.SingleTargetAppends | utils/cache.js:165-188 | a save target without fall-through appends the record to its own table only |
| MemoryDb.SingleTargetTables | utils/cache.js:165-188 | such a target names exactly its own table |
| MemoryDb.AppendedToOne | utils/cache.js:164-199 | appending to a one-table list is a single append |
| MemoryDb.AppendToNamespace | utils/cache.js:115-199 | selecting a namespace and a single target, then appending, leaves that namespace's document with the record appended, pending, and the cache untouched |
| MemoryDb.FallThroughAppends | utils/cache.js:190-195 | `API_CALLS` appends to `API_CALLS`, `movies` and `tvShows`; `movies` appends to `movies` and `tvShows` |
| MemoryDb.ApiCallsThrowsOnCreatedNamespaces | utils/cache.js:190-191 | no created namespace has an `API_CALLS` table, so that target always throws there |
| MemoryDb.KeyWordsTargetAppendsNothing | utils/cache.js:180-182 | the `keyWords` target matches no case: the stored document becomes pending unchanged |
| MemoryDb.AppendedRecordIsRemovable | utils/memCache.js:78-100 | a record appended by the database's owner can be removed from the end of its table, giving back its size |
| MemoryDb.FindTerm | utils/cache.js:102-107 | the record at `FirstKey` decides: none gives a miss; a non-object there throws; a record holding the key gives a hit with its payload's first element, or the error of reading it; a miss happens exactly when no record holds the key |
| MemoryDb.IsSearchTermInCache | utils/cache.js:97-108 | a non-array table throws; otherwise the term is searched lower-cased |
| MemoryDb.AppendedTermIsFound | utils/cache.js:97-108 | a term appended after records that lack it is found, with the first element of its payload |
| MemoryDb.FirstKey | utils/cache.js:102-103 | the scan stops at the first record that holds the key or is not an object, every record before it lacking the key |
| MemoryDb.FoundAfterMisses | utils/cache.js:102-107 | records without the key before a record that has it do not change the answer |
| MemoryDb.FoundInRecord | utils/cache.js:102-105 | a lone record holding the key is found, with its payload's first element |
| MemoryDb.FindEmail | utils/cache.js:85-90 | a found entry is one of the scanned entries |
| MemoryDb.ScanNamespaces | utils/cache.js:79-94 | a found entry comes from some stored value's `authentication` array, and with no such arrays nothing is found |
| MemoryDb.GetByEmail | utils/cache.js:79-94 | no user is ever found, because the stored values are strings |
| FetchHelper.Persist | utils/fetchHelper.js:19-35 | storing a response selects the user's namespace (or `default`) and the response's save target, keeps the id, and can fail only with a type error |
| FetchHelper.HandleFetchResponse | utils/fetchHelper.js:11-44 | a non-ok response changes nothing and returns no value; a body that fails to parse is rethrown with the fetch error prefix; an ok body is set as `data.data`, the store is updated as `Persist` says, and the data is returned unless storing threw |
| FetchHelper.FetchOrUseCache | utils/fetchHelper.js:58-95 | at most two remote calls; a lookup error or a hit makes none, and a hit returns the cached payload; a miss calls the remote, with a transport error or a non-ok first response ending the run; an ok first response leads to a second call |
| FetchHelper.StoreFailureIsSwallowed | utils/fetchHelper.js:31-37 | when the final save throws, the fetched data is still returned and the cache is unchanged |
| FetchHelper.PersistAppends | utils/fetchHelper.js:19-35 | storing a response under a single target always completes; the document with one record holding `[body]` appended to that table is written and charged when it fits, and otherwise the failed save is swallowed with the cache unchanged and the document left pending |
| FetchHelper.PersistIsSaveOfAppend | utils/fetchHelper.js:19-35 | storing is the save of the namespace document with the record appended |
| FetchHelper.HandleAppends | utils/fetchHelper.js:16-37 | an ok response is returned and set as `data.data` whether or not it could be stored; it is appended as one record to the target table of the user's namespace when the document fits, and the cache is unchanged when it does not |
| FetchHelper.MissFetchesTwice | utils/fetchHelper.js:75-87 | on a miss with a successful first handling the remote is called twice, and the result is the second handling's |
| FetchHelper.DoubleFetchAppendsTwice | utils/fetchHelper.js:58-95 | on a miss with two ok answers the remote is called twice and the second body is returned; the target table gains both records in order when there is room for each document in turn, only the first when the second does not fit, only the second when just the second fits, and nothing otherwise |
| FetchHelper.AppendAfterAppend | utils/fetchHelper.js:19-35 | storing into a namespace that already holds one appended record adds a second one after it when the document fits, and keeps the cache as the first write left it otherwise |
| FetchHelper.AppendedTwice | utils/fetchHelper.js:19-35 | two appends to one table leave both records at its end, in order |
| PageSection.SectionItem | utils/pageSectionService.js:12-19 | the stored item is an object with no keys besides `title` and `description` |
| PageSection.SectionItemFields | utils/pageSectionService.js:12-19 | the item holds exactly the title and description the body has, with their values |
| PageSection.SaveDynamicPageSection | utils/pageSectionService.js:11-24 | a missing body or a table name of the wrong type throws; on success the save target is `homePage`, the id is kept, and the namespace is the lower-cased table name (unchanged for an empty one) |
| PageSection.SectionIsAppended | utils/pageSectionService.js:11-24 | when the document fits, the item is appended as one record to `homePage` of the named namespace, the document is written back and charged, and nothing stays pending; otherwise the cache's room or owner error is thrown with the cache unchanged |
| PageSection.SectionIsSaveOfAppend | utils/pageSectionService.js:15-23 | before the save, the appended document is pending under the selected namespace |
| UserAccount.Fresh | models/user.js:6-25 | a new user has every field `null`, is not created, has nothing pending, and counts 0 API requests |
| UserAccount.CreateNewUser | models/user.js:52-65 | a username of the wrong type throws with `default` selected; a created user is flagged, carries only the join date, counts 0 API requests, and the store's target is `authentication` |
| UserAccount.CreateNewUserOutcome | models/user.js:52-65 | creation fails only by the name's type or by room or owner; on success the user's namespace is selected and present, with the id kept |
| UserAccount.SetPending | models/user.js:67-85 | a setter stores its value under its field in the pending object, keeps the other pending fields and changes no public field |
| UserAccount.SettersKeepPublicFields | models/user.js:67-77 | after the three setters the public fields are still `null` and the pending object holds exactly the join date, name, e-mail and password |
| UserAccount.LengthOf | models/user.js:111-137 | a count throws exactly on a `null` table and otherwise reads `length`: the element count of an array, the length of a string, the `length` property of an object |
| UserAccount.CountAPIRequests | models/user.js:143-145 | 0 while the field is `null`, and the field otherwise |
| UserAccount.Save | models/user.js:147-159 | an instance not made by `createNewUser` throws with nothing changed; otherwise the instance is activated, and any returned user is freshly created with the `authentication` target |
| UserAccount.Activated | models/user.js:152-153 | `isActive` and `isAdmin` become true in the pending object, which otherwise keeps its fields |
| UserAccount.AuthenticationAppended | models/user.js:154 | the pending object is appended as one record to `authentication` |
| UserAccount.SaveWritesRecord | models/user.js:154-155 | the record is appended; the namespace document is written back, charged in full, when it fits, and otherwise the cache's error is thrown with the cache unchanged |
| UserAccount.RecreateSelectsDefault | models/user.js:157 | re-creating with the `null` username selects `default`, whose document exists, and writes nothing |
| UserAccount.SaveAppendsAuthentication | models/user.js:147-159 | when the document fits, saving appends the activated object to the user's `authentication` table and returns a new user bound to `default`; otherwise `save` throws the cache's error and the cache is unchanged |
| UserAccount.SaveRecreatesDefault | models/user.js:147-159 | when the document fits, the record is written and the returned user is freshly created under `default` |
| UserAccount.SaveRejectsWhenFull | models/user.js:154-155 | when the document does not fit, `save` rejects with the cache's error and the cache is unchanged |
| UserAccount.SaveAfterWrites | models/user.js:154-158 | once the record is set, `save` ends with the database save's error or with the re-created user |
| UserAccount.AuthenticationEntry | models/user.js:31 | a `null` cache has no entry, and a cache without `authentication` throws |
| UserAccount.SetDataFromCache | models/user.js:27-50 | a non-object is refused; a `null` cache throws; a loaded user is not created, has nothing pending, and takes its tables from the cache |
| UserAccount.LoadAfterSave | models/user.js:31-39 | loading a namespace whose only authentication record was saved gives back the saved name, e-mail, password and join date, active and admin |
| UserAccount.KeywordsNotRead | models/user.js:45 | the `keyWords` table is never loaded |
| MovieLookup.New | models/movie.js:6-18 | construction succeeds exactly for an object, array or `null`, with no category selected |
| MovieLookup.SetCategory | models/movie.js:31-37 | `category` returns what was set, and the store is unchanged |
| MovieLookup.CategoryRoundTrip | models/movie.js:31-37 | `category` reads back what `setCategory` wrote, and setting what it reads changes nothing |
| MovieLookup.MapCacheToTableName | models/movie.js:20-29 | `movies` maps to `latest-films`, `tvShows` to `tv-shows`, `searchTerms` to itself, each in both directions, and nothing else maps |
| MovieLookup.ResultsAt | models/movie.js:60 | reading the results path can fail only with a type error |
| MovieLookup.ShapedResults | models/movie.js:60 | on a document of the expected shape the path reaches the movie list |
| MovieLookup.FirstStop | models/movie.js:63 | the search stops at the first element that matches or is `null`, or runs to the end |
| MovieLookup.FindFirst | models/movie.js:63-64 | `find` gives nothing when it runs to the end, throws on a `null` element, and otherwise gives the element where it stopped |
| MovieLookup.FindMovieHelper | models/movie.js:47-68 | a lookup without a category throws; a query that is not a string throws; errors are of these two kinds only; a movie it returns has the id |
| MovieLookup.SearchTable | models/movie.js:60-67 | once the keys are chosen, the search fails only with a type error, and a movie it returns has the id |
| MovieLookup.GetMovieByID | models/movie.js:43-45 | `getMovieByID` is `findMovieByIdAndQuery` with the query omitted or `null`; it throws "The category is not set" exactly when the category is unset; a movie it returns has the id |
| MovieLookup.FindMovieByIdAndQuery | models/movie.js:39-41 | without a category it throws; with one, a query that is neither `null` nor a string throws; a movie it returns has the id |
| MovieLookup.GetMovieByIdMisses | models/movie.js:43-68 | with no matching and no `null` element the lookup gives `null` |
| MovieLookup.GetMovieByIdFindsFirst | models/movie.js:43-68 | the lookup gives the first matching movie object, or throws when a `null` element comes first |
| MovieLookup.FilmsSearchList | models/movie.js:60-67 | on the `movies` category the lookup is `find` over the `latest-films` results |
| MovieLookup.QuerySearchList | models/movie.js:47-67 | with a string query the lookup is `find` over the results of the table the lower-cased query names, whatever the category maps to |
| MovieLookup.QuerySearchesItsTable | models/movie.js:53-58 | with a category set, a string query selects the table it names, lower-cased |
| MovieLookup.ShapedSearch | models/movie.js:60-67 | on a document of the expected shape the search of a table is `find` over its movie list |
| MovieLookup.QueryCaseIgnored | models/movie.js:54-58 | the query's letter case does not change the answer |
| MovieLookup.NumericIdMatchesText | models/movie.js:63 | ids are compared as strings: 42 matches "42" but not "042" |
| MovieLookup.MissingIdMatchesUndefinedText | models/movie.js:63 | an element without an `id` matches a missing id and the string "undefined", but not `null` |
| PasswordStrength.New | utils/password.js:13-16 | a new checker holds the password and the given minimum length, or 8 when it is omitted |
| PasswordStrength.SetPassword | utils/password.js:18-20 | only the password changes |
| PasswordStrength.AnyChar | utils/password.js:27-66 | an unanchored character-class test is true exactly when some character is in the class |
| PasswordStrength.CheckPasswordStrength | utils/password.js:72-89 | each indicator holds exactly when some character is special, a digit, lower-case or upper-case, or the length reaches the minimum; strong is exactly the conjunction of the five |
| PasswordStrength.CountTrueFull | utils/password.js:102-113 | the count of true indicators equals their number exactly when all are true |
| PasswordStrength.IsValid | utils/password.js:96-114 | valid exactly when every indicator, strong included, is true, which is exactly when the password is strong |
| PasswordStrength.AppendingKeepsIndicators | utils/password.js:27-89 | appending characters never turns an indicator from true to false |

## Left out

- Eviction and capacity alerts: `_isLocalStorageAtCapacity` always answers false and the alert code is a placeholder (utils/cache.js:143-152, 321-334).
- `estimateObjectSize`'s internals (`JSON.stringify`, `Blob`, the `-1` error path) are the `Estimator` parameter. `estimateListSize` refers to a method that does not exist and is not modelled.
- The UUID generator, `Date`, `getFormattedDate` and `fetch` are parameters: the id, `now`, `clock`, `joined` and `remote`.
- Unused fields (`_filter_flags`, `_localCache`, `_cacheID`, `_tableMapping` as an object) are not modelled. Neither are `_clearLocalCache` and `_isLocalStorageAtCapacity` as separate members: their effects are inlined.
- Aliasing is not modelled. The user's and the movie's `memDB` is passed in as an argument rather than held by reference, and `setDataFromCache`'s `memDB` field is not kept.
- Properties inherited from JavaScript prototypes (`constructor`, `Array.prototype` members) are not modelled. Property reads see own properties, plus `length` on arrays and strings.
- `toLowerCase` is modelled on ASCII letters only. Numbers are integers.
- `String(v)` of an object is always "[object Object]": custom `toString` methods are not modelled. Nor is the JSON `undefined`-dropping of values set through the setters.
- The password length is counted in characters, not UTF-16 code units. The checks take strings only, while the regex tests also accept other values.
- `PasswordImplementer` (bcrypt hashing) is not modelled.
- The private `User` setters are inlined into `SetDataFromCache`.
- `console` logging, the Express server, `getFetchOptions`, the date helper and the browser scripts are not part of this model.
- `getByEmail`'s inner loop over an `authentication` value that is not an array is treated as having no entries. The code never reaches it, because the stored values are strings.
- MemoryDb.FindEmail: states only that a found entry is one of those scanned, not which one. The outer scan never reaches it.
- MemoryDb.CreateTables: its own contract covers the empty-name and existing-namespace cases only; `MemoryDb.CreateTablesWrites` states the writes and the state each failure leaves.
- MemoryDb.SetItemToSave: its own contract covers the no-op and error cases only; `MemoryDb.SetItemToSaveAppends` states the append.
- MovieLookup.ResultsAt: states only the error kind; `MovieLookup.ShapedResults` covers documents of the expected shape.
- MovieLookup.FindMovieHelper: the lookup lemmas cover the `movies` category without a query, and any category with a string query, on documents of the expected shape; other shapes are covered only by the error and id contracts.
- UserAccount.Save: the full effect is proved only for a username left `null`, the only value `createNewUser` and `save` ever give it.
- UserAccount.SetDataFromCache: the user fields read from the authentication record are stated only for a saved record (`UserAccount.LoadAfterSave`).
- FetchHelper.Persist: its own contract states the selection only; `FetchHelper.PersistIsSaveOfAppend` and `FetchHelper.PersistAppends` state the write.
- MemoryDb.New: the backing cache is either an object store or absent (`None`, the "must be an instance" error). An `undefined` `memCache`, which throws a `TypeError` at `.cache` (utils/cache.js:46), and a `null` `cache`, which passes the `typeof` test, are not represented.
- String parameters: `setItemToSave`'s `key`, `isSearchTermInCache`'s `searchTerm`, `handleFetchResponse`'s `data.tableName` and `saveDynamicPageSection`'s `sectionName` are strings in the model (the JSDoc declares `key` and `sectionName` `{string}`). The source calls `toLowerCase` on them (utils/cache.js:103-104, 141; utils/fetchHelper.js:29), so a non-string there would throw a `TypeError`. In `handleFetchResponse` that error would be rethrown with `data.fetchError` in front. None of this is modelled.
- Concurrency: other request handlers can run at each `await` (utils/fetchHelper.js:16, 75-76, 84-85) and change the shared database's selected name, save target and cache between the steps. The model runs each call to completion, so that interleaving is not modelled.
