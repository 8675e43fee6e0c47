/** The Basic-Auth front of the web server (web/users.go): the per-request
    authentication decision with its cache of bcrypt outcomes, and the check
    that every configured password hash is well-formed.

    Go strings are byte strings, so user names, passwords and hashes are
    `Bytes`; the cache key is the hexadecimal text built from them. The
    collaborators are parameters: the loaded configuration is a `Result`, the
    Basic-Auth header an `Option`, and bcrypt's compare and cost functions as
    well as the cache's room-making are function values. */
module Users {
  import opened Wrappers
  import opened Hex

  /** Errors are opaque; only their identity is tracked. */
  type Error = string

  /** The part of the web configuration this code reads: user name to
      bcrypt hash. */
  datatype Config = Config(users: map<Bytes, Bytes>)

  /** The user name and password of a Basic-Auth header. */
  datatype Credentials = Credentials(user: Bytes, pass: Bytes)

  /** What the handler does with the request. */
  datatype Response =
    | Forwarded                            // the wrapped handler serves it
    | Unauthorized(authenticate: string)   // 401, with this WWW-Authenticate value
    | InternalError                        // 500

  /** The WWW-Authenticate challenge sent with every 401. */
  const BasicChallenge: string := "Basic"

  /** The cache of verification outcomes, keyed by `CacheKey`. */
  type CacheMap = map<string, bool>

  /** One request's effect: the response, the cache afterwards, and whether
      the slow bcrypt comparison ran. */
  datatype Step = Step(response: Response, cache: CacheMap, compared: bool)

  // ---------------------------------------------------------------------
  // validateUsers

  /** Loads the configuration and checks each stored hash with `cost`,
      returning the first error met. Go ranges over the map in an
      unspecified order; the loop picks an arbitrary unvisited user, and
      `examined` records, in order, the users whose hash was checked. */
  method ValidateUsers(config: Result<Config, Error>, cost: Bytes -> Result<int, Error>)
    returns (r: Outcome<Error>, ghost examined: seq<Bytes>)
    ensures config.Failure? ==> r == Fail(config.error) && examined == []
    ensures r.Pass? <==>
      config.Success? && forall u :: u in config.value.users ==> cost(config.value.users[u]).Success?
    ensures config.Success? && r.Fail? ==>
      exists u :: u in config.value.users && cost(config.value.users[u]) == Failure(r.error)
    ensures config.Success? ==> forall i :: 0 <= i < |examined| ==> examined[i] in config.value.users
    ensures forall i, j :: 0 <= i < j < |examined| ==> examined[i] != examined[j]
    ensures config.Success? && r.Fail? ==>
      |examined| > 0 && cost(config.value.users[examined[|examined| - 1]]) == Failure(r.error)
    ensures config.Success? ==>
      forall i :: 0 <= i < |examined| - 1 ==> cost(config.value.users[examined[i]]).Success?
    ensures config.Success? && r.Pass? ==>
      forall u :: u in config.value.users ==> u in examined
  {
    examined := [];
    if config.Failure? {
      return Fail(config.error), examined;
    }
    var users := config.value.users;
    var remaining := users.Keys;
    while remaining != {}
      invariant remaining <= users.Keys
      invariant forall i :: 0 <= i < |examined| ==> examined[i] in users && examined[i] !in remaining
      invariant forall u :: u in users && u !in remaining ==> u in examined
      invariant forall i, j :: 0 <= i < j < |examined| ==> examined[i] != examined[j]
      invariant forall i :: 0 <= i < |examined| ==> cost(users[examined[i]]).Success?
      decreases remaining
    {
      var u :| u in remaining;
      examined := examined + [u];
      var c := cost(users[u]);
      if c.Failure? {
        return Fail(c.error), examined;
      }
      remaining := remaining - {u};
    }
    r := Pass;
  }

  // ---------------------------------------------------------------------
  // userAuthRoundtrip.ServeHTTP

  /** How a request's user, stored hash and password become a cache key. */
  type KeyFunction = (Bytes, Bytes, Bytes) -> string

  /** The cache key as web/users.go builds it: the hexadecimal encoding of
      user, hash and password concatenated, two lower-case digits per byte. */
  function CacheKey(user: Bytes, hash: Bytes, pass: Bytes): (k: string)
    ensures |k| == 2 * (|user| + |hash| + |pass|)
    ensures forall i :: 0 <= i < |k| ==> k[i] in HexTable
    ensures Decode(k) == Some(user + hash + pass)
  {
    DecodeEncode(user + hash + pass);
    Encode(user + hash + pass)
  }

  /** The corrected cache key: each part encoded on its own and the three
      encodings joined with ':', which is not a hexadecimal digit. */
  function SeparatedKey(user: Bytes, hash: Bytes, pass: Bytes): (k: string)
    ensures |k| == 2 * (|user| + |hash| + |pass|) + 2
    ensures k[|Encode(user)|] == ':' && k[|Encode(user)| + |Encode(hash)| + 1] == ':'
  {
    Encode(user) + ":" + Encode(hash) + ":" + Encode(pass)
  }

  /** Authentication is enforced: the configuration loaded and names users. */
  predicate AuthRequired(config: Result<Config, Error>)
  {
    config.Success? && |config.value.users| > 0
  }

  /** A Basic-Auth header is present and names a configured user. */
  predicate KnownUser(config: Result<Config, Error>, auth: Option<Credentials>)
  {
    AuthRequired(config) && auth.Some? && auth.value.user in config.value.users
  }

  /** The stored hash of the user the header names. */
  function StoredHash(config: Result<Config, Error>, auth: Option<Credentials>): Bytes
    requires KnownUser(config, auth)
  {
    config.value.users[auth.value.user]
  }

  /** The cache key of the request. */
  function RequestKey(keyOf: KeyFunction, config: Result<Config, Error>, auth: Option<Credentials>): string
    requires KnownUser(config, auth)
  {
    keyOf(auth.value.user, StoredHash(config, auth), auth.value.pass)
  }

  /** The cache already holds a success for this request. */
  predicate CacheHit(keyOf: KeyFunction, config: Result<Config, Error>, auth: Option<Credentials>,
                     cache: CacheMap)
  {
    KnownUser(config, auth) && RequestKey(keyOf, config, auth) in cache && cache[RequestKey(keyOf, config, auth)]
  }

  /** The bcrypt verdict on the request's password. */
  predicate PasswordMatches(config: Result<Config, Error>, auth: Option<Credentials>,
                            compare: (Bytes, Bytes) -> bool)
  {
    KnownUser(config, auth) && compare(StoredHash(config, auth), auth.value.pass)
  }

  /** The handler's decision for one request, with the cache key built by
      `keyOf`: `CacheKey` is the handler as written, `SeparatedKey` the
      corrected one. A cached `false` is not a hit: only successes are
      served from the cache, every other known-user request makes room, runs
      the comparison and stores its verdict. */
  function Handle(keyOf: KeyFunction, config: Result<Config, Error>, auth: Option<Credentials>,
                  cache: CacheMap, compare: (Bytes, Bytes) -> bool, makeRoom: CacheMap -> CacheMap): (r: Step)
    // a configuration that does not load is a 500, and only that is
    ensures r.response.InternalError? <==> config.Failure?
    // every rejection carries the Basic challenge
    ensures r.response.Unauthorized? ==> r.response.authenticate == BasicChallenge
    // forwarded: no users configured, a cached success, or a matching password
    ensures r.response.Forwarded? <==>
      config.Success? &&
      (|config.value.users| == 0 || CacheHit(keyOf, config, auth, cache) || PasswordMatches(config, auth, compare))
    // bcrypt runs exactly for known users without a cached success
    ensures r.compared <==> KnownUser(config, auth) && !CacheHit(keyOf, config, auth, cache)
    ensures !r.compared ==> r.cache == cache
    ensures r.compared ==>
      r.cache == makeRoom(cache)[RequestKey(keyOf, config, auth) := PasswordMatches(config, auth, compare)]
    ensures r.compared ==> (r.response.Forwarded? <==> PasswordMatches(config, auth, compare))
  {
    if config.Failure? then Step(InternalError, cache, false)
    else if |config.value.users| == 0 then Step(Forwarded, cache, false)
    else if auth.None? || auth.value.user !in config.value.users then
      Step(Unauthorized(BasicChallenge), cache, false)
    else
      var user, pass := auth.value.user, auth.value.pass;
      var hashedPassword := config.value.users[user];
      var cacheKey := keyOf(user, hashedPassword, pass);
      var ok := cacheKey in cache;
      var valid := if ok then cache[cacheKey] else false;
      if valid && ok then Step(Forwarded, cache, false)
      else
        var authOk := compare(hashedPassword, pass);
        Step(if authOk then Forwarded else Unauthorized(BasicChallenge),
             makeRoom(cache)[cacheKey := authOk], true)
  }

  /** The shared cache object; its mutex is not modelled. */
  class Cache {
    var entries: CacheMap

    constructor ()
      ensures entries == map[]
    {
      entries := map[];
    }
  }

  /** The authenticating wrapper around a handler. The configuration path,
      the wrapped handler and the logger are not modelled: the loaded
      configuration is passed to each request and the response says whether
      the handler is called. */
  class UserAuthRoundtrip {
    const cache: Cache

    constructor (cache: Cache)
      ensures this.cache == cache
    {
      this.cache := cache;
    }

    /** Serves one request, updating the shared cache in place as
        `Handle` describes for the source's key, `CacheKey`. */
    method ServeHTTP(config: Result<Config, Error>, auth: Option<Credentials>,
                     compare: (Bytes, Bytes) -> bool, makeRoom: CacheMap -> CacheMap)
      returns (response: Response, compared: bool)
      modifies cache
      ensures Step(response, cache.entries, compared) ==
              Handle(CacheKey, config, auth, old(cache.entries), compare, makeRoom)
    {
      compared := false;
      if config.Failure? {
        return InternalError, compared;
      }
      var users := config.value.users;
      if |users| == 0 {
        return Forwarded, compared;
      }
      if auth.Some? {
        var user, pass := auth.value.user, auth.value.pass;
        if user in users {
          var hashedPassword := users[user];
          var cacheKey := CacheKey(user, hashedPassword, pass);
          var ok := cacheKey in cache.entries;
          var valid := if ok then cache.entries[cacheKey] else false;
          if valid && ok {
            return Forwarded, compared;
          }
          cache.entries := makeRoom(cache.entries);
          var authOk := compare(hashedPassword, pass);
          compared := true;
          cache.entries := cache.entries[cacheKey := authOk];
          if authOk {
            return Forwarded, compared;
          }
        }
      }
      response := Unauthorized(BasicChallenge);
    }
  }
}
