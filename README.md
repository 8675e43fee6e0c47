# Basic-Auth gate of the exporter web server, in Dafny

This project models `web/users.go` of the exporter toolkit. That file has two parts:

- `validateUsers` loads the web configuration and checks that every stored password hash is a well-formed bcrypt hash.
- `userAuthRoundtrip.ServeHTTP` wraps an HTTP handler with HTTP Basic authentication. On each request it reloads the configuration. If no users are configured, it forwards the request. Otherwise it reads the Basic-Auth header and looks up the user's stored hash. It then consults a shared cache of bcrypt outcomes, keyed by the hex encoding of user, hash and password. Only a cached success is served from the cache. Every other request for a known user makes room in the cache, runs the slow bcrypt comparison and stores the verdict. The request is then forwarded, or rejected with a 401 carrying `WWW-Authenticate: Basic`. A configuration that fails to load gives a 500.

Modules:

- `Wrappers`: `Option`, `Result`, and `Outcome` (Go's nil-or-error).
- `Hex`: the lower-case hex encoding used for the cache key, and its inverse.
- `Users`:
  - the `ValidateUsers` loop;
  - `Handle`, the pure decision for one request. It takes the function that builds the cache key. `Handle(CacheKey, …)` is the handler as written; `Handle(SeparatedKey, …)` is the corrected handler of "## Findings";
  - the `Cache` and `UserAuthRoundtrip` classes, whose `ServeHTTP` method updates the shared map in place and is proved equal to `Handle(CacheKey, …)`.
- `UsersProperties`: the lemmas. They cover what the key identifies, cache soundness, agreement with a cache-free reference decision, the collision the key allows, and how many comparisons repeated requests cost.

Collaborators become parameters:

- The loaded configuration (`getConfig`) is a `Result<Config, Error>`.
- The parsed header (`r.BasicAuth()`) is an `Option<Credentials>`.
- `bcrypt.CompareHashAndPassword` is a function `compare(hash, pass): bool`; a nil error counts as a match.
- `bcrypt.Cost` is a function `cost(hash): Result<int, Error>`.
- The cache's `makeRoom` is a function from cache map to cache map.

In a sequence of requests, each `Request` carries its own loaded configuration and its own `makeRoom`. So the configuration may be reloaded between requests, and each eviction may choose differently.

Go strings are byte strings, so names, passwords and hashes are `seq<Byte>`. The cache key is a Dafny `string`.

## Behaviour worth noting

- **Cached failures.** One might expect a cached `false` to be answered with a 401 straight from the cache. The guard at web/users.go:67 is `valid && ok`, so a cached failure falls through: the handler makes room, compares again and overwrites the entry. `Handle` follows the code, and `CachedFailureRecompares` states it.
- **Key uniqueness.** One might expect two requests to share a cache key only if user, hash and password are all identical. web/users.go:65 concatenates the three without a separator, so that is not true in general; see "## Findings". The model proves the guarantees the key as written does give:
  - the key fixes the triple once the user and hash lengths are known;
  - with user and password fixed, a changed hash changes the key;
  - with user and hash fixed, a changed password changes the key;
  - it identifies user and password when no user name contains `$` and every hash starts with `$`, which bcrypt hashes do.

  For the key as written, cache soundness across requests (`HandlePreservesSound`, `RunForwardsIffAuthorized`) is proved for a fixed configuration whose keys identify user and password. `UnambiguousKeys` gives that condition when no user name contains `$` and every stored hash starts with `$`.
- **Order of validation.** `validateUsers` ranges over a Go map, so "the first error" is the error of whichever failing hash the iteration reaches first. The model picks users in an arbitrary order. It promises only that the returned error belongs to some failing hash and that every hash checked before that one passed.

## Model

| member | source | states |
|---|---|---|
| Users.ValidateUsers | web/users.go:26-40 | A load error is returned unchanged and no hash is checked. Success holds exactly when the configuration loads and `cost` succeeds on every stored hash. A failure returns the error of a failing hash, the last one examined; every hash examined before it passed. Each user is examined at most once, and on success all are. |
| Users.CacheKey | web/users.go:65 | The key is twice as long as user, hash and password together. Every character is one of `0-9a-f`. It decodes back to the concatenated bytes. |
| Users.SeparatedKey | web/users.go:65 | The corrected key: the three hex encodings joined by two `:` characters, which sit right after the user's and the hash's encodings. |
| Users.Handle | web/users.go:49-88 | 500 exactly when the configuration fails to load. Forwarded exactly when the configuration loads and there are no users, or the cache holds `true` for the request key, or the password matches. bcrypt runs exactly for a known user without a cached success. Without a comparison the cache is unchanged. With one, the new cache is `makeRoom(cache)` with the request key set to the verdict, and the request is forwarded iff the verdict is true. Every 401 carries the `Basic` challenge. |
| Users.Cache.constructor | web/users.go:46 | A new shared cache is empty. |
| Users.UserAuthRoundtrip.ServeHTTP | web/users.go:49-88 | Updating the shared cache in place gives the response, the new cache and the comparison flag that `Handle(CacheKey, …)` gives for the old cache. |
| Users.UserAuthRoundtrip.constructor | web/users.go:42-47 | The wrapper holds the shared cache it is given. |
| Hex.Encode | web/users.go:65 | The encoding is twice as long as its input, and each character is a lower-case hex digit. |
| Hex.EncodeAt | web/users.go:65 | Character `2i` is the high digit of byte `i`, and character `2i+1` its low digit. |
| Hex.DigitValue | web/users.go:65 | Not in the source: the digit reader of the inverse encoding, used to prove the key injective. It succeeds exactly on `0-9`, `a-f` and `A-F`, with a value below 16. |
| Hex.DigitRoundTrip | web/users.go:65 | Not in the source, which never decodes: reading back a digit gives its value, a step of the injectivity proof. |
| Hex.Decode | web/users.go:65 | Not in the source, which never decodes: the inverse of the encoding, used to prove it injective. A successful decoding is half as long as the text. |
| Hex.DecodeEncode | web/users.go:65 | Decoding the encoding of any bytes gives those bytes back. This inverse exists only to prove the encoding injective. |
| Hex.EncodeInjective | web/users.go:65 | Equal encodings come from equal bytes. |
| UsersProperties.CacheKeyDeterminesTriple | web/users.go:65 | Equal keys with equal user and hash lengths have equal user, hash and password. |
| UsersProperties.DifferentHashesDifferentKeys | web/users.go:65 | For a fixed user and password, different stored hashes give different keys. |
| UsersProperties.DifferentPasswordsDifferentKeys | web/users.go:65 | For a fixed user and hash, different passwords give different keys. |
| UsersProperties.KeysCanCollide | web/users.go:65 | Two different (user, hash, password) triples can have the same key. |
| UsersProperties.UnambiguousKeyPair | web/users.go:64-65 | If no user name contains `$` and every hash starts with `$`, two configured users' requests with equal keys have the same user and the same password. |
| UsersProperties.UnambiguousKeys | web/users.go:64-65 | Under the same condition, the key as written identifies user and password across the whole configuration. |
| UsersProperties.SeparatedKeyDeterminesTriple | web/users.go:65 | Equal separated keys have equal user, hash and password. |
| UsersProperties.SeparatedKeyInjective | web/users.go:65 | The separated key is injective on all triples. |
| UsersProperties.ValidCredentialsForwarded | web/users.go:62-82 | A known user with a matching password is forwarded, whatever the cache holds. |
| UsersProperties.ForwardedIffAuthorized | web/users.go:57-88 | If every cached success is a real match, the request is forwarded exactly when the cache-free reference decision authorizes it. Otherwise the response is a 401 with the `Basic` challenge. |
| UsersProperties.HandlePreservesSound | web/users.go:66-78 | If the keys identify user and password within the configuration, and room-making only removes entries, a request stores no success that is not a real match. |
| UsersProperties.SeparatedHandlePreservesSound | web/users.go:66-78 | With the separated key, every cached success stays a match for the hash it was keyed with, under any configuration, and so the cache is sound for whichever configuration is loaded. |
| UsersProperties.CollisionForwardsWrongPassword | web/users.go:65-71 | As written, for users `a` with any non-empty hash `H1` and `a+H1` with hash `H2`: after `a+H1` logs in with a password `P` that matches `H2`, user `a` with password `H2+P` is forwarded from the cache without a comparison, although `H2+P` does not match `H1`. |
| UsersProperties.SeparatedRejectsWrongPassword | web/users.go:65-82 | With the separated key, for the same users and passwords, the second request is compared and rejected with a 401 carrying `Basic`. |
| UsersProperties.Run | web/users.go:49-88 | A sequence of requests, each with its own configuration and room-making, gives one response per request and at most one comparison per request. |
| UsersProperties.RunForwardsIffAuthorized | web/users.go:57-88 | Starting from a sound cache under a fixed configuration whose keys identify user and password, every request in a sequence gets the reference decision, and the cache stays sound. |
| UsersProperties.SeparatedRunForwardsIffAuthorized | web/users.go:50-88 | With the separated key and configurations that may change from request to request, every request gets the reference decision for the configuration loaded for it. |
| UsersProperties.CachedRepeatsCompareNothing | web/users.go:66-71 | While the request key holds `true`, repeats of that request are forwarded with no comparison and leave the cache unchanged. |
| UsersProperties.RepeatedValidRequestComparesAtMostOnce | web/users.go:66-82 | A request with the right password, repeated any number of times, is always forwarded and is compared at most once, whatever each room-making does. |
| UsersProperties.CachedFailureRecompares | web/users.go:67-77 | A cached `false` is not served: the request is compared again and the key then holds the new verdict. |
| UsersProperties.StaleEntryIgnored | web/users.go:64-67 | An entry written for a user's old hash does not change whether a request under the user's new hash, with the same password, hits the cache. |

## Findings

| source | as written | input that shows it | evidently intended | confidence | as-written member | corrected member |
|---|---|---|---|---|---|---|
| web/users.go:65 | The cache key is the hex encoding of user, hash and password concatenated, with no separator between them. | Users `a` with a bcrypt hash `H1` and `a+H1` with a bcrypt hash `H2` of password `P`, where `H2+P` is not a password of `H1`. User `a+H1` logs in with `P` and `true` is cached under the hex of `a+H1+H2+P`. Then user `a` with password `H2+P` has the same key, hits that entry and is forwarded. | The key identifies user, hash and password, for example each part hex-encoded on its own and the three joined with `:`. | medium; not executed | UsersProperties.CollisionForwardsWrongPassword | UsersProperties.SeparatedRunForwardsIffAuthorized |

## Left out

- The mutex around the cache (web/users.go:66-78) and concurrent requests: each request is modelled alone and in sequence, so the race in which two requests compare the same key is not modelled.
- bcrypt itself (web/users.go:33, 74): `compare` and `cost` are function parameters.
- Configuration loading (`getConfig`): it reads and parses a YAML file; the model takes its result as an input. The Go `Config` has more fields than `Users`; only `Users` is read here.
- Parsing the Authorization header (`r.BasicAuth()`), which is in net/http: the model takes the parsed pair or its absence.
- Writing the HTTP response: the 500 and 401 bodies, the status codes and the call to the wrapped handler. These are represented only by the `Response` value and its `WWW-Authenticate` value.
- Logging of the configuration error (web/users.go:52): output only.
- The body of `makeRoom` and the cache's capacity bound: they are not part of this model. `makeRoom` is an arbitrary function. Only the soundness lemmas assume that it does no more than remove entries. The model states no size invariant.
- Users.ValidateUsers: which failing hash's error is returned depends on Go's map iteration order, so the contract names no particular one.
- UsersProperties.RunForwardsIffAuthorized: for the key as written, the sequence lemma keeps one configuration for all requests. Across reloads the concatenated key can collide even for `$`-free user names, when hashes differ in length. Agreement across changing configurations is proved only for the corrected key, in `SeparatedRunForwardsIffAuthorized`.
