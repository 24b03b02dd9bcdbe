/**
  `MemoryCache`: a flat map from key to serialised value with a byte budget,
  a used-space counter and an owner id that must be set before any write.

  Values are kept in parsed form (the JSON round trip is the identity), so
  `getItem` hands back what `setItem` stored. The size estimator is a
  parameter: `Size` is its estimate of a value (0 for a falsy value), and
  `ofText` its estimate of the serialised string held in the map.
  `removeItem` estimates that string and then hands the resulting number to
  the same estimator again, so what it subtracts is the estimate of a number
  (`Returned`), not of the value.
 */
module MemCache {
  import opened JsValues

  const MiB: int := 1024 * 1024
  const DefaultSizeInMB: int := 5

  /** The size estimator: `ofValue(v)` estimates `v`, `ofText(v)` estimates the string `JSON.stringify(v)`. */
  datatype Estimator = Estimator(ofValue: Json -> nat, ofText: Json -> nat)

  /** `estimateObjectSize(v)`: a falsy value costs nothing; any other is charged the estimator's figure. */
  function Size(est: Estimator, v: Json): (r: nat)
    ensures Falsy(v) ==> r == 0
    ensures !Falsy(v) ==> r == est.ofValue(v)
  {
    if Falsy(v) then 0 else est.ofValue(v)
  }

  /**
    What `removeItem` gives back for a stored value: `estimateObjectSize` of
    the string `JSON.stringify(v)` held in the map, estimated once more as a
    number (0 when the first estimate is 0).
   */
  function Returned(est: Estimator, v: Json): (r: nat)
    ensures est.ofText(v) == 0 ==> r == 0
    ensures est.ofText(v) != 0 ==> r == est.ofValue(Num(est.ofText(v)))
  {
    Size(est, Num(est.ofText(v)))
  }

  datatype Store = Store(cache: map<string, Json>, capacity: int, used: int, owner: Option<string>)

  /** The accounting invariant `setItem` maintains: used space within the budget. */
  predicate Bounded(s: Store) {
    s.used <= s.capacity
  }

  /** `setItem`'s budget and owner checks both pass for `v`. */
  predicate Fits(s: Store, est: Estimator, v: Json) {
    s.owner.Some? && s.used + Size(est, v) <= s.capacity
  }

  /** The getter `availableSpace`: what the budget leaves; negative only once the budget is overrun. */
  function AvailableSpace(s: Store): (r: int)
    ensures r == LocalStorageSize(s) - SpaceUsed(s)
    ensures r >= 0 <==> Bounded(s)
  {
    s.capacity - s.used
  }

  function SpaceUsed(s: Store): int {
    s.used
  }

  function LocalStorageSize(s: Store): int {
    s.capacity
  }

  /** `toMB`: the available space in megabytes. */
  function ToMB(s: Store): (r: real)
    ensures r * (MiB as real) == AvailableSpace(s) as real
  {
    AvailableSpace(s) as real / (MiB as real)
  }

  /** `new MemoryCache(sizeInMB = 5)`: an omitted size (`None`, i.e. `undefined`) takes the default. */
  function New(sizeInMB: Option<int>): (s: Store)
    ensures sizeInMB.None? ==> LocalStorageSize(s) == 5 * 1024 * 1024
    ensures sizeInMB.Some? ==> LocalStorageSize(s) == sizeInMB.value * 1024 * 1024
    ensures SpaceUsed(s) == 0 && AvailableSpace(s) == LocalStorageSize(s)
    ensures s.cache == map[] && s.owner == None
    ensures (sizeInMB.None? || sizeInMB.value >= 0) ==> Bounded(s)
  {
    var mb := if sizeInMB.Some? then sizeInMB.value else DefaultSizeInMB;
    Store(map[], mb * MiB, 0, None)
  }

  function SetId(s: Store, id: string): (r: Store)
    ensures r.owner == Some(id)
    ensures r.cache == s.cache && r.capacity == s.capacity && r.used == s.used
  {
    s.(owner := Some(id))
  }

  function GetItem(s: Store, key: string): (r: Result<Json>)
    ensures r.Ok? <==> key in s.cache
    ensures r.Ok? ==> r.value == s.cache[key]
    ensures r.Err? ==> r.error == KeyNotFound(key)
  {
    if key in s.cache then Ok(s.cache[key]) else Err(KeyNotFound(key))
  }

  /** `setItem`: the checks run in the source's order (empty, capacity, owner) before anything is stored. */
  function SetItem(s: Store, est: Estimator, key: string, value: Json): (r: Result<Store>)
    ensures (key == "" || Falsy(value)) ==> r == Err(EmptyKeyOrValue)
    ensures key != "" && !Falsy(value) && s.used + Size(est, value) > s.capacity ==> r == Err(CacheSizeExceeded)
    ensures key != "" && !Falsy(value) && s.used + Size(est, value) <= s.capacity && s.owner == None ==> r == Err(NoCacheId)
    ensures r.Ok? <==> key != "" && !Falsy(value) && s.used + Size(est, value) <= s.capacity && s.owner.Some?
    ensures r.Ok? ==> r.value.cache == s.cache[key := value]
    ensures r.Ok? ==> r.value.used == s.used + Size(est, value) && Bounded(r.value)
    ensures r.Ok? ==> r.value.capacity == s.capacity && r.value.owner == s.owner
  {
    if key == "" || Falsy(value) then Err(EmptyKeyOrValue)
    else if s.used + Size(est, value) > s.capacity then Err(CacheSizeExceeded)
    else if s.owner.None? then Err(NoCacheId)
    else Ok(s.(cache := s.cache[key := value], used := s.used + Size(est, value)))
  }

  /** `removeItem`: deletes one key and gives back `Returned` of its value. */
  function RemoveItem(s: Store, est: Estimator, key: string): (r: Result<Store>)
    ensures r.Ok? <==> key in s.cache
    ensures r.Err? ==> r.error == KeyNotFound(key)
    ensures r.Ok? ==> r.value.cache.Keys == s.cache.Keys - {key}
    ensures r.Ok? ==> forall k :: k in r.value.cache ==> r.value.cache[k] == s.cache[k]
    ensures r.Ok? ==> r.value.used == s.used - Returned(est, s.cache[key])
    ensures r.Ok? ==> r.value.capacity == s.capacity && r.value.owner == s.owner
  {
    if key !in s.cache then Err(KeyNotFound(key))
    else Ok(s.(cache := s.cache - {key}, used := s.used - Returned(est, s.cache[key])))
  }

  /**
    The getters follow the writes: `setItem` moves its value's size from the
    available space to the used space, `removeItem` moves `Returned` back, and
    neither changes the budget.
   */
  lemma GettersFollowWrites(s: Store, est: Estimator, key: string, value: Json)
    ensures var r := SetItem(s, est, key, value);
      r.Ok? ==>
        && SpaceUsed(r.value) == SpaceUsed(s) + Size(est, value)
        && AvailableSpace(r.value) == AvailableSpace(s) - Size(est, value) >= 0
        && LocalStorageSize(r.value) == LocalStorageSize(s)
    ensures var r := SetItem(s, est, key, value);
      r.Err? ==> r.error != EmptyKeyOrValue ==> Size(est, value) > AvailableSpace(s) || s.owner.None?
    ensures var r := RemoveItem(s, est, key);
      r.Ok? ==>
        && SpaceUsed(r.value) == SpaceUsed(s) - Returned(est, s.cache[key])
        && AvailableSpace(r.value) == AvailableSpace(s) + Returned(est, s.cache[key])
        && LocalStorageSize(r.value) == LocalStorageSize(s)
  {
  }

  /** `entry.parentID === this.id`, with the store's id `null` until `setID`. */
  predicate ParentIdMatches(entry: Json, owner: Option<string>) {
    match owner
    case None => Get(entry, "parentID") == Some(Null)
    case Some(id) => Get(entry, "parentID") == Some(Str(id))
  }

  /**
    `removeTableItemByIndex(index, table)`: the table array is updated in place in
    the source; here the updated table is returned with the updated store.
   */
  function RemoveTableItemByIndex(s: Store, est: Estimator, index: int, table: Json): (r: Result<(Store, Json)>)
    ensures !table.Arr? ==> r == Err(NotAnArray)
    ensures table.Arr? && !(0 <= index < |table.elems| && !Falsy(table.elems[index])) ==> r == Ok((s, table))
    ensures table.Arr? && 0 <= index < |table.elems| && !Falsy(table.elems[index]) ==>
      var entry := table.elems[index];
      if ParentIdMatches(entry, s.owner) then
        r.Ok? && r.value.0 == s.(used := s.used - Size(est, entry)) &&
        r.value.1 == Arr(table.elems[..index] + table.elems[index + 1..])
      else r == Err(NotOwner)
  {
    if !table.Arr? then Err(NotAnArray)
    else if |table.elems| == 0 then Ok((s, table))
    else if !(0 <= index < |table.elems|) || Falsy(table.elems[index]) then Ok((s, table))
    else
      var entry := table.elems[index];
      if !ParentIdMatches(entry, s.owner) then Err(NotOwner)
      else Ok((s.(used := s.used - Size(est, entry)), Arr(table.elems[..index] + table.elems[index + 1..])))
  }

  /** `setSize(sizeInMB)`: only a positive integer no larger than the current limit in MB is accepted. */
  function SetSize(s: Store, sizeInMB: Json): (r: Result<Store>)
    ensures !sizeInMB.Num? ==> r == Err(SizeNotInteger)
    ensures sizeInMB.Num? && sizeInMB.n <= 0 ==> r == Err(SizeNotPositive)
    ensures r.Ok? <==> sizeInMB.Num? && 0 < sizeInMB.n && sizeInMB.n as real <= s.capacity as real / (MiB as real)
    ensures r.Ok? ==> r.value.capacity == sizeInMB.n * MiB && r.value.capacity <= s.capacity
    ensures r.Ok? ==> r.value.cache == s.cache && r.value.used == s.used && r.value.owner == s.owner
  {
    if !sizeInMB.Num? then Err(SizeNotInteger)
    else if sizeInMB.n <= 0 then Err(SizeNotPositive)
    else if sizeInMB.n * MiB > s.capacity then Err(SizeAboveMaximum)
    else Ok(s.(capacity := sizeInMB.n * MiB))
  }

  // ------------------------------------------------------------ properties

  /** A stored value reads back, and every other key reads as before. */
  lemma SetThenGet(s: Store, est: Estimator, key: string, value: Json, other: string)
    requires SetItem(s, est, key, value).Ok?
    ensures GetItem(SetItem(s, est, key, value).value, key) == Ok(value)
    ensures other != key ==> GetItem(SetItem(s, est, key, value).value, other) == GetItem(s, other)
  {
  }

  /**
    Overwriting a key charges the full size of the new value again: after two
    writes under one key the counter holds both sizes.
   */
  lemma OverwriteChargesTwice(s: Store, est: Estimator, key: string, v1: Json, v2: Json)
    requires SetItem(s, est, key, v1).Ok?
    requires SetItem(SetItem(s, est, key, v1).value, est, key, v2).Ok?
    ensures var s2 := SetItem(SetItem(s, est, key, v1).value, est, key, v2).value;
      s2.cache == s.cache[key := v2] && s2.used == s.used + Size(est, v1) + Size(est, v2)
  {
  }

  /**
    A write followed by a removal of the same key moves the counter by the
    difference between two estimates: the value's size is added but only the
    size of the number estimating its serialised string is taken away.
   */
  lemma PutThenRemoveDrift(s: Store, est: Estimator, key: string, value: Json)
    requires SetItem(s, est, key, value).Ok?
    ensures var s1 := SetItem(s, est, key, value).value;
      RemoveItem(s1, est, key).Ok? &&
      RemoveItem(s1, est, key).value.used == s.used + Size(est, value) - Returned(est, value) &&
      RemoveItem(s1, est, key).value.cache == s.cache - {key}
    ensures key !in s.cache ==> RemoveItem(SetItem(s, est, key, value).value, est, key).value.cache == s.cache
  {
    var s1 := SetItem(s, est, key, value).value;
    assert s1.cache - {key} == s.cache - {key};
  }

  /** Removal keeps the counter within the budget; only `setSize` can break it. */
  lemma RemovalsPreserveBounded(s: Store, est: Estimator, key: string, index: int, table: Json)
    requires Bounded(s)
    ensures RemoveItem(s, est, key).Ok? ==> Bounded(RemoveItem(s, est, key).value)
    ensures RemoveTableItemByIndex(s, est, index, table).Ok? ==> Bounded(RemoveTableItemByIndex(s, est, index, table).value.0)
  {
  }

  /** `setSize` does not recheck the used space: shrinking below it leaves an unbounded store. */
  lemma SetSizeCanBreakBounded()
    ensures var s := Store(map[], 2 * MiB, 2 * MiB, Some("id"));
      Bounded(s) && SetSize(s, Num(1)).Ok? && !Bounded(SetSize(s, Num(1)).value)
  {
  }
}
