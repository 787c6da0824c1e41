/** `CacheManager` of scripts/research-contact-enrichment.py: one JSON file
    per key holding the time it was written and the content. The directory
    is an in-memory map, the clock an explicit parameter (seconds), and the
    MD5 file name is left implicit: a map keyed by the key itself behaves
    the same as long as the hash does not collide. */
module Cache {
  import opened Wrappers

  /** `timedelta(hours=24)` in seconds. */
  const MaxAge: real := 86400.0

  /** What a cache file can hold: a well-formed record, or something
      `json.load` / `datetime.fromisoformat` rejects (a truncated write, a
      missing timestamp). */
  datatype Entry<T> = Stored(timestamp: real, content: T) | Unreadable

  type Store<T> = map<string, Entry<T>>

  /** `get`: the content of a readable entry younger than 24 hours, else
      None; a reading error is logged and also yields None. */
  function Get<T>(store: Store<T>, key: string, now: real): (r: Option<T>)
    ensures r.Some? <==> key in store && store[key].Stored? && now - store[key].timestamp < MaxAge
    ensures r.Some? ==> r.value == store[key].content
  {
    if key in store then
      match store[key]
      case Stored(t, content) => if now - t < MaxAge then Some(content) else None
      case Unreadable => None
    else None
  }

  /** How the write in `set` ends: the file could not be opened (nothing is
      written), the dump failed part-way (the file is left truncated), or it
      was written. Every failure is logged and swallowed. */
  datatype WriteResult = OpenFailed | DumpFailed | Written

  /** `set` */
  function Set<T>(store: Store<T>, key: string, content: T, now: real, w: WriteResult): (r: Store<T>)
    ensures forall k :: k != key ==> (k in r <==> k in store) && (k in store ==> r[k] == store[k])
    ensures w == Written ==> key in r && r[key] == Stored(now, content)
    ensures w == DumpFailed ==> key in r && r[key] == Unreadable
    ensures w == OpenFailed ==> r == store
  {
    match w
    case OpenFailed => store
    case DumpFailed => store[key := Unreadable]
    case Written => store[key := Stored(now, content)]
  }

  /** The callers' `if cached:`: a cached value counts only when it is truthy,
      so an empty cached result is fetched again. */
  function CachedHit<T>(store: Store<T>, key: string, now: real, truthy: T -> bool): (r: Option<T>)
    ensures r.Some? <==> Get(store, key, now).Some? && truthy(Get(store, key, now).value)
    ensures r.Some? ==> r == Get(store, key, now)
  {
    var c := Get(store, key, now);
    if c.Some? && truthy(c.value) then c else None
  }

  // ---------------------------------------------------------------------------
  // Properties
  // ---------------------------------------------------------------------------

  /** What was written is read back until it is 24 hours old, and not after. */
  lemma SetThenGet<T>(store: Store<T>, key: string, content: T, now: real, later: real)
    ensures Get(Set(store, key, content, now, Written), key, later) ==
              if later - now < MaxAge then Some(content) else None
  {
  }

  /** A failed write never yields stale content: after it the key misses,
      unless the open failed and the old entry is still fresh. */
  lemma FailedSetThenGet<T>(store: Store<T>, key: string, content: T, now: real, later: real)
    ensures Get(Set(store, key, content, now, DumpFailed), key, later) == None
    ensures Get(Set(store, key, content, now, OpenFailed), key, later) == Get(store, key, later)
  {
  }

  /** Writing one key leaves every other key's lookups unchanged. */
  lemma SetOtherKey<T>(store: Store<T>, key: string, other: string, content: T, now: real, w: WriteResult, later: real)
    requires other != key
    ensures Get(Set(store, key, content, now, w), other, later) == Get(store, other, later)
  {
  }

  /** Once an entry has expired it stays expired as the clock moves on. */
  lemma ExpiryIsPermanent<T>(store: Store<T>, key: string, now: real, later: real)
    requires now <= later && Get(store, key, now) == None
    ensures Get(store, key, later) == None
  {
  }
}
