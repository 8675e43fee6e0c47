/** Properties of the authentication decision in web/users.go: what the
    cache key identifies, when the cache never changes a verdict, what goes
    wrong when it does, and that a repeated request pays for bcrypt at most
    once. Lemmas that take a `keyOf` hold for the handler as written
    (`keyOf == CacheKey`); the corrected key `SeparatedKey` is compared
    with it where the two differ. */
module UsersProperties {
  import opened Wrappers
  import opened Hex
  import opened Users

  // ---------------------------------------------------------------------
  // What a key identifies

  /** Equal keys come from the same user and password, for users of `users`. */
  ghost predicate KeyInjectiveOn(keyOf: KeyFunction, users: map<Bytes, Bytes>)
  {
    forall u1, p1, u2, p2 ::
      u1 in users && u2 in users && keyOf(u1, users[u1], p1) == keyOf(u2, users[u2], p2) ==>
      u1 == u2 && p1 == p2
  }

  /** Equal keys come from the same user, hash and password, always. */
  ghost predicate KeyInjective(keyOf: KeyFunction)
  {
    forall u1, h1, p1, u2, h2, p2 ::
      keyOf(u1, h1, p1) == keyOf(u2, h2, p2) ==> u1 == u2 && h1 == h2 && p1 == p2
  }

  /** The number of elements before the first `x`. */
  function Leading<T(==)>(s: seq<T>, x: T): (n: nat)
    ensures n <= |s|
    ensures forall i :: 0 <= i < n ==> s[i] != x
    ensures n < |s| ==> s[n] == x
    decreases |s|
  {
    if s == [] || s[0] == x then 0 else 1 + Leading(s[1..], x)
  }

  /** In `a + b`, where `b` starts with an `x` that `a` lacks, the
      first `x` ends `a`. */
  lemma {:induction false} LeadingOfJoin<T>(a: seq<T>, b: seq<T>, x: T)
    requires x !in a
    requires |b| > 0 && b[0] == x
    ensures Leading(a + b, x) == |a|
    decreases |a|
  {
    if a == [] {
      assert a + b == b;
    } else {
      assert (a + b)[1..] == a[1..] + b;
      LeadingOfJoin(a[1..], b, x);
    }
  }

  // The key as written

  /** A key determines user, hash and password once the lengths of the
      user name and the hash are known. */
  lemma CacheKeyDeterminesTriple(u1: Bytes, h1: Bytes, p1: Bytes, u2: Bytes, h2: Bytes, p2: Bytes)
    requires CacheKey(u1, h1, p1) == CacheKey(u2, h2, p2)
    requires |u1| == |u2| && |h1| == |h2|
    ensures u1 == u2 && h1 == h2 && p1 == p2
  {
    var s1, s2 := u1 + h1 + p1, u2 + h2 + p2;
    EncodeInjective(s1, s2);
    assert u1 == s1[..|u1|] && u2 == s2[..|u1|];
    assert h1 == s1[|u1|..|u1| + |h1|] && h2 == s2[|u1|..|u1| + |h1|];
    assert p1 == s1[|u1| + |h1|..] && p2 == s2[|u1| + |h1|..];
  }

  /** For a fixed user and password, a changed stored hash changes the key,
      so a reloaded configuration never hits an entry made for the old hash. */
  lemma DifferentHashesDifferentKeys(user: Bytes, h1: Bytes, h2: Bytes, pass: Bytes)
    requires h1 != h2
    ensures CacheKey(user, h1, pass) != CacheKey(user, h2, pass)
  {
    if CacheKey(user, h1, pass) == CacheKey(user, h2, pass) {
      CacheKeyDeterminesTriple(user, h1, pass, user, h2, pass);
    }
  }

  /** For a fixed user and hash, different passwords have different keys. */
  lemma DifferentPasswordsDifferentKeys(user: Bytes, hash: Bytes, p1: Bytes, p2: Bytes)
    requires p1 != p2
    ensures CacheKey(user, hash, p1) != CacheKey(user, hash, p2)
  {
    if CacheKey(user, hash, p1) == CacheKey(user, hash, p2) {
      CacheKeyDeterminesTriple(user, hash, p1, user, hash, p2);
    }
  }

  /** The concatenation has no separators, so in general different triples
      share a key: user "a" with hash "$\x01" and user "a$" with hash "\x01",
      both with password "\x02". */
  lemma KeysCanCollide()
    ensures CacheKey([97], [36, 1], [2]) == CacheKey([97, 36], [1], [2])
  {
    assert [97] + [36, 1] + [2] == [97, 36] + [1] + [2];
  }

  /** The byte '$' that every bcrypt hash starts with. */
  const Dollar: Byte := 36

  /** No user name contains '$' and every stored hash starts with it. */
  predicate Unambiguous(users: map<Bytes, Bytes>)
  {
    forall u :: u in users ==> Dollar !in u && |users[u]| > 0 && users[u][0] == Dollar
  }

  /** Under `Unambiguous`, the key of a request identifies its user and its
      password. */
  lemma UnambiguousKeyPair(users: map<Bytes, Bytes>, u1: Bytes, p1: Bytes, u2: Bytes, p2: Bytes)
    requires Unambiguous(users)
    requires u1 in users && u2 in users
    requires CacheKey(u1, users[u1], p1) == CacheKey(u2, users[u2], p2)
    ensures u1 == u2 && p1 == p2
  {
    var r1, r2 := users[u1] + p1, users[u2] + p2;
    assert u1 + users[u1] + p1 == u1 + r1 && u2 + users[u2] + p2 == u2 + r2;
    EncodeInjective(u1 + r1, u2 + r2);
    SplitAtDollar(u1, r1, u2, r2);
    assert p1 == r1[|users[u1]|..] == r2[|users[u2]|..] == p2;
  }

  /** Two '$'-free names, each followed by a text starting with '$', agree
      only if the names and the texts agree. */
  lemma SplitAtDollar(a: Bytes, b: Bytes, c: Bytes, d: Bytes)
    requires Dollar !in a && Dollar !in c
    requires |b| > 0 && b[0] == Dollar && |d| > 0 && d[0] == Dollar
    requires a + b == c + d
    ensures a == c && b == d
  {
    LeadingOfJoin(a, b, Dollar);
    LeadingOfJoin(c, d, Dollar);
    assert a == (a + b)[..|a|] == c;
    assert b == (a + b)[|a|..] == d;
  }

  lemma UnambiguousKeys(users: map<Bytes, Bytes>)
    requires Unambiguous(users)
    ensures KeyInjectiveOn(CacheKey, users)
  {
    forall u1, p1, u2, p2 |
      u1 in users && u2 in users && CacheKey(u1, users[u1], p1) == CacheKey(u2, users[u2], p2)
      ensures u1 == u2 && p1 == p2
    {
      UnambiguousKeyPair(users, u1, p1, u2, p2);
    }
  }

  // The corrected key

  lemma ColonNotInEncoding(s: Bytes)
    ensures ':' !in Encode(s)
  {
  }

  /** Two colon-free texts, each followed by ':' and a rest, agree only if
      the texts and the rests agree. */
  lemma SplitAtColon(a: string, b: string, c: string, d: string)
    requires ':' !in a && ':' !in c
    requires a + ":" + b == c + ":" + d
    ensures a == c && b == d
  {
    var k := a + ":" + b;
    assert k == a + (":" + b) && k == c + (":" + d);
    LeadingOfJoin(a, ":" + b, ':');
    LeadingOfJoin(c, ":" + d, ':');
    assert a == k[..|a|] == c;
    assert b == k[|a| + 1..] == d;
  }

  lemma Regroup(a: string, b: string, c: string)
    ensures a + ":" + b + ":" + c == a + ":" + (b + ":" + c)
  {
  }

  /** The ':'-separated key determines user, hash and password. */
  lemma SeparatedKeyDeterminesTriple(u1: Bytes, h1: Bytes, p1: Bytes, u2: Bytes, h2: Bytes, p2: Bytes)
    requires SeparatedKey(u1, h1, p1) == SeparatedKey(u2, h2, p2)
    ensures u1 == u2 && h1 == h2 && p1 == p2
  {
    var r1, r2 := Encode(h1) + ":" + Encode(p1), Encode(h2) + ":" + Encode(p2);
    Regroup(Encode(u1), Encode(h1), Encode(p1));
    Regroup(Encode(u2), Encode(h2), Encode(p2));
    ColonNotInEncoding(u1);
    ColonNotInEncoding(u2);
    SplitAtColon(Encode(u1), r1, Encode(u2), r2);
    EncodeInjective(u1, u2);
    ColonNotInEncoding(h1);
    ColonNotInEncoding(h2);
    SplitAtColon(Encode(h1), Encode(p1), Encode(h2), Encode(p2));
    EncodeInjective(h1, h2);
    EncodeInjective(p1, p2);
  }

  lemma SeparatedKeyInjective()
    ensures KeyInjective(SeparatedKey)
  {
    forall u1, h1, p1, u2, h2, p2 | SeparatedKey(u1, h1, p1) == SeparatedKey(u2, h2, p2)
      ensures u1 == u2 && h1 == h2 && p1 == p2
    {
      SeparatedKeyDeterminesTriple(u1, h1, p1, u2, h2, p2);
    }
  }

  // ---------------------------------------------------------------------
  // The decision against its reference

  /** The reference decision without any cache: no users configured, or a
      header naming a known user whose password matches the stored hash. */
  predicate Authorized(users: map<Bytes, Bytes>, auth: Option<Credentials>, compare: (Bytes, Bytes) -> bool)
  {
    |users| == 0 ||
    (auth.Some? && auth.value.user in users && compare(users[auth.value.user], auth.value.pass))
  }

  /** Every success in the cache is a match for the configured hashes. */
  ghost predicate Sound(keyOf: KeyFunction, cache: CacheMap, users: map<Bytes, Bytes>,
                        compare: (Bytes, Bytes) -> bool)
  {
    forall u, p :: u in users && keyOf(u, users[u], p) in cache && cache[keyOf(u, users[u], p)] ==>
      compare(users[u], p)
  }

  /** Every success in the cache is a match for the hash it was keyed
      with, whatever the configuration. */
  ghost predicate SoundForAnyConfig(keyOf: KeyFunction, cache: CacheMap, compare: (Bytes, Bytes) -> bool)
  {
    forall u, h, p :: keyOf(u, h, p) in cache && cache[keyOf(u, h, p)] ==> compare(h, p)
  }

  /** Room-making only removes entries; it never adds or changes one. */
  ghost predicate EvictsOnly(makeRoom: CacheMap -> CacheMap)
  {
    forall m: CacheMap, k: string :: k in makeRoom(m) ==> k in m && makeRoom(m)[k] == m[k]
  }

  /** Valid credentials are forwarded whatever the cache holds. */
  lemma ValidCredentialsForwarded(keyOf: KeyFunction, users: map<Bytes, Bytes>, auth: Option<Credentials>,
                                  cache: CacheMap, compare: (Bytes, Bytes) -> bool,
                                  makeRoom: CacheMap -> CacheMap)
    requires Authorized(users, auth, compare)
    ensures Handle(keyOf, Success(Config(users)), auth, cache, compare, makeRoom).response == Forwarded
  {
  }

  /** With a sound cache the decision is exactly the reference decision:
      the cache only saves comparisons. */
  lemma ForwardedIffAuthorized(keyOf: KeyFunction, users: map<Bytes, Bytes>, auth: Option<Credentials>,
                               cache: CacheMap, compare: (Bytes, Bytes) -> bool, makeRoom: CacheMap -> CacheMap)
    requires Sound(keyOf, cache, users, compare)
    ensures Handle(keyOf, Success(Config(users)), auth, cache, compare, makeRoom).response.Forwarded? <==>
            Authorized(users, auth, compare)
    ensures !Authorized(users, auth, compare) ==>
            Handle(keyOf, Success(Config(users)), auth, cache, compare, makeRoom).response ==
            Unauthorized(BasicChallenge)
  {
  }

  /** A request keeps the cache sound when its keys identify user and
      password within the configuration; by `UnambiguousKeys` that holds for
      `CacheKey` under an unambiguous configuration. */
  lemma HandlePreservesSound(keyOf: KeyFunction, users: map<Bytes, Bytes>, auth: Option<Credentials>,
                             cache: CacheMap, compare: (Bytes, Bytes) -> bool, makeRoom: CacheMap -> CacheMap)
    requires KeyInjectiveOn(keyOf, users) && EvictsOnly(makeRoom)
    requires Sound(keyOf, cache, users, compare)
    ensures Sound(keyOf, Handle(keyOf, Success(Config(users)), auth, cache, compare, makeRoom).cache, users, compare)
  {
  }

  /** With the separated key a request keeps every cached success a real
      match under any configuration, whatever the configuration was when
      the entry was written. */
  lemma SeparatedHandlePreservesSound(config: Result<Config, Error>, auth: Option<Credentials>,
                                      cache: CacheMap, compare: (Bytes, Bytes) -> bool,
                                      makeRoom: CacheMap -> CacheMap)
    requires EvictsOnly(makeRoom)
    requires SoundForAnyConfig(SeparatedKey, cache, compare)
    ensures SoundForAnyConfig(SeparatedKey, Handle(SeparatedKey, config, auth, cache, compare, makeRoom).cache, compare)
    ensures config.Success? ==> Sound(SeparatedKey, cache, config.value.users, compare)
  {
    SeparatedKeyInjective();
    var r := Handle(SeparatedKey, config, auth, cache, compare, makeRoom);
    if r.compared {
      var k0 := RequestKey(SeparatedKey, config, auth);
      forall u, h, p | SeparatedKey(u, h, p) in r.cache && r.cache[SeparatedKey(u, h, p)]
        ensures compare(h, p)
      {
        var k := SeparatedKey(u, h, p);
        if k != k0 {
          assert k in makeRoom(cache) && r.cache[k] == makeRoom(cache)[k];
        }
      }
    }
  }

  // ---------------------------------------------------------------------
  // The collision at the level of decisions

  /** The colliding configuration: user `a` with hash `h1`, and user `a + h1`
      with hash `h2`. */
  function CollidingUsers(a: Bytes, h1: Bytes, h2: Bytes): map<Bytes, Bytes>
  {
    map[a := h1, a + h1 := h2]
  }

  /** From an empty cache, user `a + h1` logs in with password `p`, then user
      `a` tries password `h2 + p`; room-making keeps everything. */
  function CollisionScenario(keyOf: KeyFunction, a: Bytes, h1: Bytes, h2: Bytes, p: Bytes,
                             compare: (Bytes, Bytes) -> bool): (Step, Step)
  {
    var config := Success(Config(CollidingUsers(a, h1, h2)));
    var keep := (m: CacheMap) => m;
    var first := Handle(keyOf, config, Some(Credentials(a + h1, p)), map[], compare, keep);
    (first, Handle(keyOf, config, Some(Credentials(a, h2 + p)), first.cache, compare, keep))
  }

  /** As written, for any non-empty stored hash `h1` (every bcrypt hash is
      one): once user `a + h1` logs in with `p`, user `a` is forwarded from
      the cache with password `h2 + p`, without a comparison, although that
      password does not match `a`'s hash. */
  lemma CollisionForwardsWrongPassword(a: Bytes, h1: Bytes, h2: Bytes, p: Bytes,
                                       compare: (Bytes, Bytes) -> bool)
    requires |h1| > 0
    requires compare(h2, p) && !compare(h1, h2 + p)
    ensures CollisionScenario(CacheKey, a, h1, h2, p, compare).0.response == Forwarded
    ensures CollisionScenario(CacheKey, a, h1, h2, p, compare).1.response == Forwarded
    ensures !CollisionScenario(CacheKey, a, h1, h2, p, compare).1.compared
    ensures !Authorized(CollidingUsers(a, h1, h2), Some(Credentials(a, h2 + p)), compare)
  {
    assert a + h1 != a by { assert |a + h1| > |a|; }
    assert (a + h1) + h2 + p == a + h1 + (h2 + p);
  }

  /** With the separated key the same second request is compared and
      rejected. */
  lemma SeparatedRejectsWrongPassword(a: Bytes, h1: Bytes, h2: Bytes, p: Bytes,
                                      compare: (Bytes, Bytes) -> bool)
    requires |h1| > 0
    requires compare(h2, p) && !compare(h1, h2 + p)
    ensures CollisionScenario(SeparatedKey, a, h1, h2, p, compare).0.response == Forwarded
    ensures CollisionScenario(SeparatedKey, a, h1, h2, p, compare).1.compared
    ensures CollisionScenario(SeparatedKey, a, h1, h2, p, compare).1.response == Unauthorized(BasicChallenge)
  {
    assert a + h1 != a by { assert |a + h1| > |a|; }
    SeparatedKeyInjective();
  }

  // ---------------------------------------------------------------------
  // Sequences of requests

  /** One request as the handler sees it: the configuration loaded for it,
      its Basic-Auth header, and the room-making of this request (which may
      evict a different entry each time). */
  datatype Request = Request(config: Result<Config, Error>, auth: Option<Credentials>,
                             makeRoom: CacheMap -> CacheMap)

  /** The responses to a sequence of requests served one after another,
      the cache at the end and the number of bcrypt comparisons made. */
  datatype Trace = Trace(responses: seq<Response>, cache: CacheMap, compares: nat)

  function Run(keyOf: KeyFunction, requests: seq<Request>, cache: CacheMap,
               compare: (Bytes, Bytes) -> bool): (t: Trace)
    ensures |t.responses| == |requests|
    ensures t.compares <= |requests|
    decreases |requests|
  {
    if requests == [] then Trace([], cache, 0)
    else
      var q := requests[0];
      var s := Handle(keyOf, q.config, q.auth, cache, compare, q.makeRoom);
      var t := Run(keyOf, requests[1..], s.cache, compare);
      Trace([s.response] + t.responses, t.cache, t.compares + (if s.compared then 1 else 0))
  }

  /** Starting from a sound cache under a fixed configuration whose keys
      identify user and password, every request of a sequence gets the
      reference decision. */
  lemma {:induction false} RunForwardsIffAuthorized(
    keyOf: KeyFunction, users: map<Bytes, Bytes>, requests: seq<Request>, cache: CacheMap,
    compare: (Bytes, Bytes) -> bool)
    requires KeyInjectiveOn(keyOf, users)
    requires forall i :: 0 <= i < |requests| ==>
      requests[i].config == Success(Config(users)) && EvictsOnly(requests[i].makeRoom)
    requires Sound(keyOf, cache, users, compare)
    ensures Sound(keyOf, Run(keyOf, requests, cache, compare).cache, users, compare)
    ensures forall i :: 0 <= i < |requests| ==>
      (Run(keyOf, requests, cache, compare).responses[i].Forwarded? <==>
       Authorized(users, requests[i].auth, compare))
    decreases |requests|
  {
    if requests != [] {
      var q := requests[0];
      var s := Handle(keyOf, q.config, q.auth, cache, compare, q.makeRoom);
      ForwardedIffAuthorized(keyOf, users, q.auth, cache, compare, q.makeRoom);
      HandlePreservesSound(keyOf, users, q.auth, cache, compare, q.makeRoom);
      assert forall i :: 0 <= i < |requests[1..]| ==> requests[1..][i] == requests[i + 1];
      RunForwardsIffAuthorized(keyOf, users, requests[1..], s.cache, compare);
      var t := Run(keyOf, requests, cache, compare);
      var rest := Run(keyOf, requests[1..], s.cache, compare);
      assert t.responses == [s.response] + rest.responses;
      forall i | 0 <= i < |requests|
        ensures t.responses[i].Forwarded? <==> Authorized(users, requests[i].auth, compare)
      {
        if i > 0 {
          assert t.responses[i] == rest.responses[i - 1];
          assert requests[i] == requests[1..][i - 1];
        }
      }
    }
  }

  /** With the separated key, the configuration may change between
      requests: every request still gets the reference decision for the
      configuration loaded for it. */
  lemma {:induction false} SeparatedRunForwardsIffAuthorized(
    requests: seq<Request>, cache: CacheMap, compare: (Bytes, Bytes) -> bool)
    requires forall i :: 0 <= i < |requests| ==> EvictsOnly(requests[i].makeRoom)
    requires SoundForAnyConfig(SeparatedKey, cache, compare)
    ensures SoundForAnyConfig(SeparatedKey, Run(SeparatedKey, requests, cache, compare).cache, compare)
    ensures forall i :: 0 <= i < |requests| ==>
      (Run(SeparatedKey, requests, cache, compare).responses[i].Forwarded? <==>
       requests[i].config.Success? && Authorized(requests[i].config.value.users, requests[i].auth, compare))
    decreases |requests|
  {
    if requests != [] {
      var q := requests[0];
      var s := Handle(SeparatedKey, q.config, q.auth, cache, compare, q.makeRoom);
      SeparatedHandlePreservesSound(q.config, q.auth, cache, compare, q.makeRoom);
      if q.config.Success? {
        ForwardedIffAuthorized(SeparatedKey, q.config.value.users, q.auth, cache, compare, q.makeRoom);
      }
      assert forall i :: 0 <= i < |requests[1..]| ==> requests[1..][i] == requests[i + 1];
      SeparatedRunForwardsIffAuthorized(requests[1..], s.cache, compare);
      var t := Run(SeparatedKey, requests, cache, compare);
      var rest := Run(SeparatedKey, requests[1..], s.cache, compare);
      assert t.responses == [s.response] + rest.responses;
      forall i | 0 <= i < |requests|
        ensures t.responses[i].Forwarded? <==>
                requests[i].config.Success? && Authorized(requests[i].config.value.users, requests[i].auth, compare)
      {
        if i > 0 {
          assert t.responses[i] == rest.responses[i - 1];
          assert requests[i] == requests[1..][i - 1];
        }
      }
    }
  }

  /** Once a request's success is cached, repeating it keeps hitting the
      cache: no comparison, the cache untouched, every repeat forwarded. */
  lemma {:induction false} CachedRepeatsCompareNothing(
    keyOf: KeyFunction, config: Result<Config, Error>, auth: Option<Credentials>,
    requests: seq<Request>, cache: CacheMap, compare: (Bytes, Bytes) -> bool)
    requires CacheHit(keyOf, config, auth, cache)
    requires forall i :: 0 <= i < |requests| ==> requests[i].config == config && requests[i].auth == auth
    ensures Run(keyOf, requests, cache, compare).compares == 0
    ensures Run(keyOf, requests, cache, compare).cache == cache
    ensures forall i :: 0 <= i < |requests| ==> Run(keyOf, requests, cache, compare).responses[i] == Forwarded
    decreases |requests|
  {
    if requests != [] {
      assert forall i :: 0 <= i < |requests[1..]| ==> requests[1..][i] == requests[i + 1];
      CachedRepeatsCompareNothing(keyOf, config, auth, requests[1..], cache, compare);
      var rest := Run(keyOf, requests[1..], cache, compare);
      var t := Run(keyOf, requests, cache, compare);
      assert t.responses == [Forwarded] + rest.responses;
    }
  }

  /** A request with the right password, repeated any number of times,
      is always forwarded and runs bcrypt at most once, whatever the cache
      held and whatever each room-making removes. */
  lemma RepeatedValidRequestComparesAtMostOnce(
    keyOf: KeyFunction, config: Result<Config, Error>, auth: Option<Credentials>,
    requests: seq<Request>, cache: CacheMap, compare: (Bytes, Bytes) -> bool)
    requires PasswordMatches(config, auth, compare)
    requires forall i :: 0 <= i < |requests| ==> requests[i].config == config && requests[i].auth == auth
    ensures Run(keyOf, requests, cache, compare).compares <= 1
    ensures forall i :: 0 <= i < |requests| ==> Run(keyOf, requests, cache, compare).responses[i] == Forwarded
  {
    if requests != [] {
      var s := Handle(keyOf, config, auth, cache, compare, requests[0].makeRoom);
      assert CacheHit(keyOf, config, auth, s.cache);
      assert forall i :: 0 <= i < |requests[1..]| ==> requests[1..][i] == requests[i + 1];
      CachedRepeatsCompareNothing(keyOf, config, auth, requests[1..], s.cache, compare);
      var rest := Run(keyOf, requests[1..], s.cache, compare);
      var t := Run(keyOf, requests, cache, compare);
      assert t.responses == [Forwarded] + rest.responses;
      forall i | 0 <= i < |requests| ensures t.responses[i] == Forwarded {
        if i > 0 { assert t.responses[i] == rest.responses[i - 1]; }
      }
    }
  }

  /** A cached failure is never served: the same request compares again. */
  lemma CachedFailureRecompares(keyOf: KeyFunction, config: Result<Config, Error>, auth: Option<Credentials>,
                                cache: CacheMap, compare: (Bytes, Bytes) -> bool, makeRoom: CacheMap -> CacheMap)
    requires KnownUser(config, auth)
    requires RequestKey(keyOf, config, auth) in cache && !cache[RequestKey(keyOf, config, auth)]
    ensures Handle(keyOf, config, auth, cache, compare, makeRoom).compared
    ensures Handle(keyOf, config, auth, cache, compare, makeRoom).cache[RequestKey(keyOf, config, auth)] ==
            PasswordMatches(config, auth, compare)
  {
  }

  /** An entry made under an old hash does not change whether a request
      under a new hash, for the same user and the same password, hits the
      cache. */
  lemma StaleEntryIgnored(users: map<Bytes, Bytes>, user: Bytes, oldHash: Bytes, pass: Bytes,
                          cache: CacheMap, v: bool)
    requires user in users && users[user] != oldHash
    ensures CacheHit(CacheKey, Success(Config(users)), Some(Credentials(user, pass)),
                     cache[CacheKey(user, oldHash, pass) := v])
        <==> CacheHit(CacheKey, Success(Config(users)), Some(Credentials(user, pass)), cache)
  {
    DifferentHashesDifferentKeys(user, users[user], oldHash, pass);
  }
}
