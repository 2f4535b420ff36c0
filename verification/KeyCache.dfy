/** The verification-key cache: one key set, refetched at most once per rate window,
    whose keys outlive both their freshness and failed fetches. */
module KeyCache {
  import opened Basics

  /** Thirty seconds in nanoseconds: the least distance between two refetches. */
  const REFETCH_INTERVAL: nat := 30_000_000_000

  datatype VerificationKey = VerificationKey(algorithm: string, material: string)

  datatype KeySet = KeySet(fetchedAt: Time, keys: map<string, VerificationKey>)

  datatype AuthError = RefreshRateLimited | KeysUnavailable | UnknownKey

  /** A published key; `parsed` is absent for unsupported or malformed ones. */
  datatype Candidate = Candidate(kid: string, use: string, parsed: Option<VerificationKey>)

  datatype Response = Unreachable | Document(candidates: seq<Candidate>)

  datatype Config = Config(algorithms: set<string>, maxKeys: nat, timeToLive: nat)

  // --------------------------------------------------------------- key sets

  function SignatureUse(): string { "sig" }

  predicate Usable(c: Candidate, config: Config) {
    && (c.use == "" || c.use == SignatureUse())
    && c.parsed.Some?
    && c.parsed.value.algorithm in config.algorithms
  }

  /** The usable candidates by key identity; a later one replaces an earlier one. */
  function KeysFrom(candidates: seq<Candidate>, config: Config): map<string, VerificationKey> {
    if candidates == [] then map[]
    else
      var earlier := KeysFrom(candidates[..|candidates| - 1], config);
      var last := candidates[|candidates| - 1];
      if Usable(last, config) then earlier[last.kid := last.parsed.value] else earlier
  }

  predicate Fetchable(r: Response, config: Config) {
    r.Document? && r.candidates != [] && |r.candidates| <= config.maxKeys
  }

  function FetchedSet(r: Response, config: Config, at: Time): Option<KeySet> {
    if Fetchable(r, config) then Some(KeySet(at, KeysFrom(r.candidates, config))) else None
  }

  method FetchKeySet(r: Response, config: Config, at: Time) returns (fetched: Option<KeySet>)
    ensures fetched == FetchedSet(r, config, at)
  {
    if r.Unreachable? {
      return None;
    }
    if |r.candidates| == 0 || |r.candidates| > config.maxKeys {
      return None;
    }
    var keys: map<string, VerificationKey> := map[];
    for i := 0 to |r.candidates|
      invariant keys == KeysFrom(r.candidates[..i], config)
    {
      var candidate := r.candidates[i];
      assert r.candidates[..i + 1][..i] == r.candidates[..i];
      if candidate.use != "" && candidate.use != SignatureUse() {
        continue;
      }
      if candidate.parsed.None? || candidate.parsed.value.algorithm !in config.algorithms {
        continue;
      }
      keys := keys[candidate.kid := candidate.parsed.value];
    }
    assert r.candidates[..|r.candidates|] == r.candidates;
    return Some(KeySet(at, keys));
  }

  /** A fetched key was published under its identity, for an allowed algorithm, and
      every identity with a usable candidate has a key. */
  lemma {:induction false} FetchedKeysArePublished(candidates: seq<Candidate>, config: Config, kid: string)
    ensures kid in KeysFrom(candidates, config) <==> exists i :: 0 <= i < |candidates| && candidates[i].kid == kid && Usable(candidates[i], config)
    ensures kid in KeysFrom(candidates, config) ==>
              var k := KeysFrom(candidates, config)[kid];
              k.algorithm in config.algorithms &&
              exists i :: 0 <= i < |candidates| && candidates[i].kid == kid && candidates[i].parsed == Some(k)
  {
    if candidates != [] {
      var init, last := candidates[..|candidates| - 1], candidates[|candidates| - 1];
      FetchedKeysArePublished(init, config, kid);
      assert forall i :: 0 <= i < |init| ==> init[i] == candidates[i];
      assert last == candidates[|candidates| - 1];
    }
  }

  // -------------------------------------------------------------- selection

  lemma OnlyKey(keys: map<string, VerificationKey>, a: string, b: string)
    requires |keys| == 1 && a in keys && b in keys
    ensures a == b
  {
    if a != b {
      assert {a, b} <= keys.Keys;
      SubsetSize({a, b}, keys.Keys);
    }
  }

  lemma SubsetSize(s: set<string>, t: set<string>)
    requires s <= t
    ensures |s| <= |t|
  {
    assert t == s + (t - s);
  }

  function SoleKey(keys: map<string, VerificationKey>): VerificationKey
    requires |keys| == 1
  {
    assert keys.Keys != {};
    assert forall a, b :: a in keys && b in keys ==> a == b by {
      forall a, b | a in keys && b in keys
        ensures a == b
      {
        OnlyKey(keys, a, b);
      }
    }
    var kid :| kid in keys;
    keys[kid]
  }

  /** By exact identity when one is given, or the set's only key otherwise. */
  function SelectKey(s: KeySet, kid: string, algorithm: string): Option<VerificationKey> {
    if kid != "" then
      if kid in s.keys && s.keys[kid].algorithm == algorithm then Some(s.keys[kid]) else None
    else if |s.keys| == 1 && SoleKey(s.keys).algorithm == algorithm then Some(SoleKey(s.keys))
    else None
  }

  predicate Stale(s: KeySet, config: Config, now: Time) {
    now - s.fetchedAt > config.timeToLive
  }

  // -------------------------------------------------------------- resolution

  datatype Cache = Cache(current: Option<KeySet>, lastForcedRefresh: Time)

  /** One call: what is asked, the clock as read before, at and after the refetch
      decision, and what a fetch would bring. */
  datatype Call = Call(kid: string, algorithm: string, checkedAt: Time, now: Time, fetchedAt: Time, response: Response)

  predicate WindowClosed(c: Cache, now: Time) {
    c.lastForcedRefresh != ZERO_TIME && now - c.lastForcedRefresh < REFETCH_INTERVAL
  }

  function Cached(c: Cache, call: Call): Option<VerificationKey> {
    if c.current.Some? then SelectKey(c.current.value, call.kid, call.algorithm) else None
  }

  predicate ServedFresh(c: Cache, config: Config, call: Call) {
    c.current.Some? && !Stale(c.current.value, config, call.checkedAt) && Cached(c, call).Some?
  }

  predicate Refetches(c: Cache, config: Config, call: Call) {
    !ServedFresh(c, config, call) && !WindowClosed(c, call.now)
  }

  function After(c: Cache, config: Config, call: Call): Cache {
    if !Refetches(c, config, call) then c
    else
      var fetched := FetchedSet(call.response, config, call.fetchedAt);
      Cache(if fetched.Some? then fetched else c.current, call.now)
  }

  function Answer(found: Option<VerificationKey>, otherwise: AuthError): Result<VerificationKey, AuthError> {
    if found.Some? then Ok(found.value) else Err(otherwise)
  }

  function Resolution(c: Cache, config: Config, call: Call): Result<VerificationKey, AuthError> {
    if ServedFresh(c, config, call) then Ok(Cached(c, call).value)
    else if WindowClosed(c, call.now) then Answer(Cached(c, call), RefreshRateLimited)
    else
      var fetched := FetchedSet(call.response, config, call.fetchedAt);
      if fetched.None? then Answer(Cached(c, call), KeysUnavailable)
      else Answer(SelectKey(fetched.value, call.kid, call.algorithm), UnknownKey)
  }

  /** The cache as the authenticator holds it, under its lock. */
  class Authenticator {
    const config: Config
    var current: Option<KeySet>
    var lastForcedRefresh: Time

    function State(): Cache
      reads this
    {
      Cache(current, lastForcedRefresh)
    }

    constructor (config: Config, initial: KeySet)
      ensures this.config == config && State() == Cache(Some(initial), ZERO_TIME)
    {
      this.config, current, lastForcedRefresh := config, Some(initial), ZERO_TIME;
    }

    method VerificationKeyFor(call: Call) returns (r: Result<VerificationKey, AuthError>)
      modifies this
      ensures r == Resolution(old(State()), config, call)
      ensures State() == After(old(State()), config, call)
    {
      var known := current;
      if known.Some? && !Stale(known.value, config, call.checkedAt) {
        var resolved := SelectKey(known.value, call.kid, call.algorithm);
        if resolved.Some? {
          return Ok(resolved.value);
        }
      }
      if lastForcedRefresh != ZERO_TIME && call.now - lastForcedRefresh < REFETCH_INTERVAL {
        if known.Some? {
          var resolved := SelectKey(known.value, call.kid, call.algorithm);
          if resolved.Some? {
            return Ok(resolved.value);
          }
        }
        return Err(RefreshRateLimited);
      }
      lastForcedRefresh := call.now;
      var fetched := FetchKeySet(call.response, config, call.fetchedAt);
      if fetched.None? {
        if known.Some? {
          var resolved := SelectKey(known.value, call.kid, call.algorithm);
          if resolved.Some? {
            return Ok(resolved.value);
          }
        }
        return Err(KeysUnavailable);
      }
      current := fetched;
      var resolved := SelectKey(fetched.value, call.kid, call.algorithm);
      if resolved.Some? {
        return Ok(resolved.value);
      }
      return Err(UnknownKey);
    }
  }

  // ------------------------------------------------------------- guarantees

  /** A returned key is of the set the cache then holds, has the requested algorithm,
      and has exactly the requested identity when one was given. */
  lemma ReturnedKeyMatches(c: Cache, config: Config, call: Call)
    requires Resolution(c, config, call).Ok?
    ensures var k := Resolution(c, config, call).value;
            var held := After(c, config, call).current;
            && k.algorithm == call.algorithm
            && held.Some?
            && (call.kid != "" ==> call.kid in held.value.keys && held.value.keys[call.kid] == k)
            && (call.kid == "" ==> held.value.keys.Values == {k})
  {
    hide KeysFrom;
    var held := After(c, config, call).current.value;
    if call.kid == "" {
      forall v | v in held.keys.Values
        ensures v == Resolution(c, config, call).value
      {
        var a :| a in held.keys && held.keys[a] == v;
        var b :| b in held.keys && held.keys[b] == SoleKey(held.keys);
        OnlyKey(held.keys, a, b);
      }
      var kid :| kid in held.keys && held.keys[kid] == SoleKey(held.keys);
      assert held.keys[kid] in held.keys.Values;
    }
  }

  /** A matching key already held is returned whenever the set is fresh, the rate window
      is closed, or the fetch fails. */
  lemma MatchingKeyIsReturned(c: Cache, config: Config, call: Call)
    requires Cached(c, call).Some?
    requires || !Stale(c.current.value, config, call.checkedAt)
             || WindowClosed(c, call.now)
             || !Fetchable(call.response, config)
    ensures Resolution(c, config, call) == Ok(Cached(c, call).value)
  {
  }

  /** In the one case left, an aged set in an open window with a successful fetch, the
      held key is returned exactly when the new set confirms it. */
  lemma OnlyRotationWithdrawsKeys(c: Cache, config: Config, call: Call)
    requires Cached(c, call).Some?
    ensures Resolution(c, config, call) == Ok(Cached(c, call).value) <==>
              !Refetches(c, config, call) || !Fetchable(call.response, config)
              || SelectKey(FetchedSet(call.response, config, call.fetchedAt).value, call.kid, call.algorithm) == Cached(c, call)
  {
  }

  // -------------------------------------------------------------------- runs

  function Run(c: Cache, config: Config, calls: seq<Call>): Cache
    decreases |calls|
  {
    if calls == [] then c else Run(After(c, config, calls[0]), config, calls[1..])
  }

  /** The instants at which the run refetched. */
  function RefetchTimes(c: Cache, config: Config, calls: seq<Call>): seq<Time>
    decreases |calls|
  {
    if calls == [] then []
    else
      (if Refetches(c, config, calls[0]) then [calls[0].now] else [])
      + RefetchTimes(After(c, config, calls[0]), config, calls[1..])
  }

  /** A clock that never goes back and never reads as unset. */
  predicate ClockRuns(calls: seq<Call>, from: Time) {
    && (forall i :: 0 <= i < |calls| ==> from <= calls[i].checkedAt <= calls[i].now <= calls[i].fetchedAt && 0 < calls[i].now)
    && (forall i, j :: 0 <= i < j < |calls| ==> calls[i].fetchedAt <= calls[j].checkedAt)
  }

  predicate Spaced(times: seq<Time>, last: Time) {
    && (last != ZERO_TIME ==> forall i :: 0 <= i < |times| ==> last + REFETCH_INTERVAL <= times[i])
    && (forall i, j :: 0 <= i < j < |times| ==> times[i] + REFETCH_INTERVAL <= times[j])
  }

  /** Any two refetches of a run are at least thirty seconds apart, and so are the
      first of them and the last one before the run. */
  lemma {:induction false} RefetchesAreSpaced(c: Cache, config: Config, calls: seq<Call>, from: Time)
    requires ClockRuns(calls, from) && c.lastForcedRefresh <= from
    ensures var times := RefetchTimes(c, config, calls);
            Spaced(times, c.lastForcedRefresh)
    decreases |calls|
  {
    hide FetchedSet;
    if calls != [] {
      var next := After(c, config, calls[0]);
      assert ClockRuns(calls[1..], calls[0].fetchedAt);
      RefetchesAreSpaced(next, config, calls[1..], calls[0].fetchedAt);
      var times, rest := RefetchTimes(c, config, calls), RefetchTimes(next, config, calls[1..]);
      if Refetches(c, config, calls[0]) {
        assert next.lastForcedRefresh == calls[0].now != ZERO_TIME;
        assert times == [calls[0].now] + rest;
      } else {
        assert next == c;
        assert times == rest;
      }
    }
  }

  predicate FetchSucceeds(c: Cache, config: Config, call: Call) {
    Refetches(c, config, call) && Fetchable(call.response, config)
  }

  function CountSuccesses(c: Cache, config: Config, calls: seq<Call>): nat
    decreases |calls|
  {
    if calls == [] then 0
    else (if FetchSucceeds(c, config, calls[0]) then 1 else 0) + CountSuccesses(After(c, config, calls[0]), config, calls[1..])
  }

  /** Over a run without a successful fetch the key set stays exactly what it was, however
      old it grows. */
  lemma {:induction false} OnlySuccessfulFetchesReplaceKeys(c: Cache, config: Config, calls: seq<Call>)
    requires CountSuccesses(c, config, calls) == 0
    ensures Run(c, config, calls).current == c.current
    decreases |calls|
  {
    hide ServedFresh, WindowClosed;
    if calls != [] {
      OnlySuccessfulFetchesReplaceKeys(After(c, config, calls[0]), config, calls[1..]);
    }
  }
}
