/** The API-key helpers: validateApiKey with its ten-minute result cache
    (Bot.js:109, 664-683) and the addApiKey upsert of the encrypted key
    (Bot.js:685-701). The clock is a parameter in milliseconds; the Gemini
    test prompt, the database and the cipher are inputs. */
module ApiKeys {
  import opened Base

  /** `new NodeCache({ stdTTL: 600 })`: every entry lives 600 seconds. */
  const TtlMs: int := 600000

  const CachePrefix: string := "apiKey_"

  /** The cache key of an API key, `apiKey_${apiKey}`. */
  function CacheKey(apiKey: string): (k: string)
    ensures |k| == |CachePrefix| + |apiKey|
    ensures k[..|CachePrefix|] == CachePrefix && k[|CachePrefix|..] == apiKey
  {
    CachePrefix + apiKey
  }

  /** A cached validation result and the time it was stored. */
  datatype Entry = Entry(valid: bool, storedAt: int)

  type Cache = map<string, Entry>

  /** An entry is returned by `cache.get` until its TTL has run out. */
  predicate Fresh(e: Entry, now: int)
  {
    now <= e.storedAt + TtlMs
  }

  /** `cache.get(cacheKey)`: the stored result while it is fresh. */
  function Lookup(cache: Cache, key: string, now: int): (r: Option<bool>)
    ensures r.Some? <==> key in cache && Fresh(cache[key], now)
    ensures r.Some? ==> r.value == cache[key].valid
  {
    if key in cache && Fresh(cache[key], now) then Some(cache[key].valid) else None
  }

  /** The new cache, the answer, and whether the test prompt was sent. */
  datatype Validation = Validation(cache: Cache, valid: bool, probed: bool)

  /** `validateApiKey(apiKey)` called at `now`: a fresh cached result, true
      or false, is the answer and nothing is sent; otherwise the test prompt
      is sent, `probeOk` says whether it succeeded (any error counts as a
      failure), and that answer is cached at `doneAt`, when the prompt
      returned. */
  function Validate(cache: Cache, apiKey: string, now: int, probeOk: bool, doneAt: int): (v: Validation)
    ensures v.probed <==> Lookup(cache, CacheKey(apiKey), now).None?
    ensures !v.probed ==> v.cache == cache && Some(v.valid) == Lookup(cache, CacheKey(apiKey), now)
    ensures v.probed ==> v.valid == probeOk && v.cache == cache[CacheKey(apiKey) := Entry(probeOk, doneAt)]
  {
    var key := CacheKey(apiKey);
    match Lookup(cache, key, now)
    case Some(b) => Validation(cache, b, false)
    case None => Validation(cache[key := Entry(probeOk, doneAt)], probeOk, true)
  }

  /** Distinct API keys have distinct cache keys, so one key's result never
      answers for another. */
  lemma CacheKeyInjective(a: string, b: string)
    requires CacheKey(a) == CacheKey(b)
    ensures a == b
  {
    assert a == CacheKey(a)[|CachePrefix|..];
  }

  /** Validating one key leaves every other key's cached answer as it was. */
  lemma ValidateIsolatesKeys(cache: Cache, apiKey: string, other: string, now: int, probeOk: bool, doneAt: int, later: int)
    requires other != apiKey
    ensures var v := Validate(cache, apiKey, now, probeOk, doneAt);
      Lookup(v.cache, CacheKey(other), later) == Lookup(cache, CacheKey(other), later)
  {
    if CacheKey(other) == CacheKey(apiKey) {
      CacheKeyInjective(other, apiKey);
    }
  }

  /** A validation that had to send the test prompt, followed by another
      of the same key within ten minutes of the prompt's return: the second
      sends nothing and answers what the first one found. */
  lemma AtMostOneProbePerWindow(cache: Cache, apiKey: string, now1: int, ok1: bool, done1: int,
                                now2: int, ok2: bool, done2: int)
    requires Lookup(cache, CacheKey(apiKey), now1).None?
    requires now2 <= done1 + TtlMs
    ensures var v1 := Validate(cache, apiKey, now1, ok1, done1);
      var v2 := Validate(v1.cache, apiKey, now2, ok2, done2);
      && v1.probed && !v2.probed && v2.valid == v1.valid == ok1 && v2.cache == v1.cache
  {
  }

  /** Once the entry has expired the prompt is sent again and the new
      answer replaces the old one, whatever it was. */
  lemma ExpiredEntryProbesAgain(cache: Cache, apiKey: string, now: int, probeOk: bool, doneAt: int)
    requires CacheKey(apiKey) in cache && now > cache[CacheKey(apiKey)].storedAt + TtlMs
    ensures var v := Validate(cache, apiKey, now, probeOk, doneAt);
      v.probed && v.valid == probeOk && v.cache[CacheKey(apiKey)] == Entry(probeOk, doneAt)
  {
  }

  /** The module-level cache of validateApiKey. */
  class KeyValidationCache {
    var entries: Cache

    constructor ()
      ensures entries == map[]
    {
      entries := map[];
    }

    /** `validateApiKey(apiKey)`; `probed` reports whether the test prompt
        was sent. */
    method ValidateApiKey(apiKey: string, now: int, probeOk: bool, doneAt: int)
      returns (valid: bool, probed: bool)
      modifies this
      ensures Validation(entries, valid, probed) == Validate(old(entries), apiKey, now, probeOk, doneAt)
    {
      var cacheKey := CacheKey(apiKey);
      var cachedResult := Lookup(entries, cacheKey, now);
      if cachedResult.Some? {
        return cachedResult.value, false;
      }
      if probeOk {
        entries := entries[cacheKey := Entry(true, doneAt)];
        return true, true;
      } else {
        entries := entries[cacheKey := Entry(false, doneAt)];
        return false, true;
      }
    }
  }

  /** The `users` table as a map from the hashed user id to the encrypted
      key; `user_id` is UNIQUE, so there is at most one row per user. The
      SHA-256 hash and the AES encryption are fixed functions given at
      construction. */
  class KeyStore {
    var users: map<string, string>
    const hash: string -> string
    const encrypt: string -> string

    constructor (hash: string -> string, encrypt: string -> string)
      ensures users == map[] && this.hash == hash && this.encrypt == encrypt
    {
      users := map[];
      this.hash := hash;
      this.encrypt := encrypt;
    }

    /** `addApiKey(userId, apiKey, chatId)`, with `userId` written as the
        decimal string `userId.toString()`. An existing row is updated, a
        missing one inserted; either way the user's row afterwards holds the
        encrypted key and no other row changes. When a database or cipher
        call throws (`succeeds` false) the error is reported to the chat and
        the table is unchanged. */
    method AddApiKey(userId: string, apiKey: string, succeeds: bool) returns (reported: bool)
      modifies this
      ensures reported == !succeeds
      ensures succeeds ==> users == Upsert(old(users), hash(userId), encrypt(apiKey))
      ensures !succeeds ==> users == old(users)
    {
      if !succeeds {
        return true;
      }
      var hashedUserId := hash(userId);
      var encryptedApiKey := encrypt(apiKey);
      if hashedUserId in users {
        users := users[hashedUserId := encryptedApiKey];
      } else {
        users := users[hashedUserId := encryptedApiKey];
      }
      return false;
    }
  }

  /** What one successful addApiKey does to the table. */
  function Upsert(users: map<string, string>, hashedUserId: string, encryptedKey: string): (u: map<string, string>)
    ensures u.Keys == users.Keys + {hashedUserId}
    ensures u[hashedUserId] == encryptedKey
    ensures forall h | h in users && h != hashedUserId :: u[h] == users[h]
  {
    users[hashedUserId := encryptedKey]
  }

  /** Repeated upserts for one user keep a single row holding the last key. */
  lemma UpsertLastWins(users: map<string, string>, h: string, k1: string, k2: string)
    ensures Upsert(Upsert(users, h, k1), h, k2) == Upsert(users, h, k2)
  {
  }
}
