/** The verification keys over time: exactly when a call refetches, exactly which key it
    returns, and how long a key the provider withdrew can still be returned. */
module KeyRotation {
  import opened Basics
  import opened KeyCache

  // ------------------------------------------------------------ what was published

  /** A candidate the configuration can use: for signatures or no stated use, parsed, and
      of an allowed algorithm. */
  predicate Offers(candidate: Candidate, config: Config, kid: string) {
    && candidate.kid == kid && candidate.use in {"", "sig"}
    && candidate.parsed.Some? && candidate.parsed.value.algorithm in config.algorithms
  }

  /** The document has between one candidate and as many as are allowed. */
  predicate Delivers(r: Response, config: Config) {
    r.Document? && 0 < |r.candidates| < config.maxKeys + 1
  }

  /** The key published last under an identity. */
  predicate PublishedLast(candidates: seq<Candidate>, config: Config, kid: string, k: VerificationKey) {
    exists i :: 0 <= i < |candidates| && Offers(candidates[i], config, kid) && candidates[i].parsed == Some(k)
                && forall j :: i < j < |candidates| ==> !Offers(candidates[j], config, kid)
  }

  /** The fetched set holds exactly the keys published last under each identity. */
  lemma {:induction false} FetchedExactly(candidates: seq<Candidate>, config: Config, kid: string, k: VerificationKey)
    ensures (kid in KeysFrom(candidates, config) && KeysFrom(candidates, config)[kid] == k) <==> PublishedLast(candidates, config, kid, k)
  {
    if candidates != [] {
      var init, last := candidates[..|candidates| - 1], candidates[|candidates| - 1];
      FetchedExactly(init, config, kid, k);
      assert forall i :: 0 <= i < |init| ==> init[i] == candidates[i];
      if Offers(last, config, kid) {
        assert candidates[|candidates| - 1] == last;
        assert PublishedLast(candidates, config, kid, k) <==> last.parsed == Some(k);
      } else {
        LastIsNoOffer(candidates, config, kid, k);
      }
    }
  }

  lemma LastIsNoOffer(candidates: seq<Candidate>, config: Config, kid: string, k: VerificationKey)
    requires candidates != [] && !Offers(candidates[|candidates| - 1], config, kid)
    ensures PublishedLast(candidates, config, kid, k) <==> PublishedLast(candidates[..|candidates| - 1], config, kid, k)
  {
    var init := candidates[..|candidates| - 1];
    assert forall i :: 0 <= i < |init| ==> init[i] == candidates[i];
    if PublishedLast(init, config, kid, k) {
      var i :| 0 <= i < |init| && Offers(init[i], config, kid) && init[i].parsed == Some(k) && forall j :: i < j < |init| ==> !Offers(init[j], config, kid);
      assert Offers(candidates[i], config, kid);
    }
  }

  // ------------------------------------------------------------------ one call

  /** The held set has the key the call asks for: the one of that identity, or, when none is
      given, its only one; either way of the algorithm asked for. */
  predicate Answers(held: Option<KeySet>, call: Call, k: VerificationKey) {
    && held.Some? && k.algorithm == call.algorithm
    && if call.kid != "" then call.kid in held.value.keys && held.value.keys[call.kid] == k
       else |held.value.keys| == 1 && k in held.value.keys.Values
  }

  lemma SelectedAnswers(s: KeySet, call: Call, k: VerificationKey)
    ensures SelectKey(s, call.kid, call.algorithm) == Some(k) <==> Answers(Some(s), call, k)
  {
    if call.kid == "" && |s.keys| == 1 {
      var kid :| kid in s.keys && s.keys[kid] == SoleKey(s.keys);
      if k in s.keys.Values {
        var other :| other in s.keys && s.keys[other] == k;
        OnlyKey(s.keys, kid, other);
      }
    }
  }

  ghost predicate NothingAnswers(held: Option<KeySet>, call: Call) {
    forall k :: !Answers(held, call, k)
  }

  lemma CachedAnswers(c: Cache, call: Call)
    ensures Cached(c, call).None? <==> NothingAnswers(c.current, call)
    ensures forall k :: Cached(c, call) == Some(k) <==> Answers(c.current, call, k)
  {
    hide SelectKey;
    forall k
      ensures Cached(c, call) == Some(k) <==> Answers(c.current, call, k)
    {
      if c.current.Some? {
        SelectedAnswers(c.current.value, call, k);
      }
    }
    assert Cached(c, call).Some? ==> Answers(c.current, call, Cached(c, call).value);
  }

  /** At least thirty seconds have passed since the last refetch, if there was one. */
  predicate WindowOpen(c: Cache, now: Time) {
    c.lastForcedRefresh == 0 || c.lastForcedRefresh + 30_000_000_000 <= now
  }

  /** The set is missing, or older than its time to live. */
  predicate Outlived(c: Cache, config: Config, at: Time) {
    c.current.None? || c.current.value.fetchedAt + config.timeToLive < at
  }

  /** A call refetches exactly when the window is open and the set is outlived or holds
      nothing that answers; only a document that delivers then replaces the set. */
  lemma RefetchesExactly(c: Cache, config: Config, call: Call)
    ensures Refetches(c, config, call) <==>
              WindowOpen(c, call.now) && (Outlived(c, config, call.checkedAt) || NothingAnswers(c.current, call))
    ensures After(c, config, call).lastForcedRefresh == if Refetches(c, config, call) then call.now else c.lastForcedRefresh
    ensures After(c, config, call).current ==
              if Refetches(c, config, call) && Delivers(call.response, config)
              then Some(KeySet(call.fetchedAt, KeysFrom(call.response.candidates, config))) else c.current
  {
    hide KeysFrom, Cached, NothingAnswers;
    CachedAnswers(c, call);
  }

  /** A call returns exactly the key that answers it in the set it leaves behind, and each
      refusal has its own reason: the window, the fetch, or the fetched set. */
  lemma AnswersExactly(c: Cache, config: Config, call: Call)
    ensures var r := Resolution(c, config, call);
            var held := After(c, config, call).current;
            && (forall k :: r == Ok(k) <==> Answers(held, call, k))
            && (r.Err? ==>
                  r.error == if !WindowOpen(c, call.now) then RefreshRateLimited
                             else if !Delivers(call.response, config) then KeysUnavailable
                             else UnknownKey)
  {
    hide KeysFrom, Cached, SelectKey, Answers;
    CachedAnswers(c, call);
    var fetched := FetchedSet(call.response, config, call.fetchedAt);
    if fetched.Some? {
      forall k
        ensures SelectKey(fetched.value, call.kid, call.algorithm) == Some(k) <==> Answers(fetched, call, k)
      {
        SelectedAnswers(fetched.value, call, k);
      }
    }
  }

  // -------------------------------------------------------------- withdrawn keys

  /** The response offers no usable key of the identity. */
  predicate Withdraws(r: Response, config: Config, kid: string) {
    r.Document? ==> forall i :: 0 <= i < |r.candidates| ==> !Offers(r.candidates[i], config, kid)
  }

  predicate Holds(c: Cache, kid: string) {
    c.current.Some? && kid in c.current.value.keys
  }

  lemma WithdrawnIsNotFetched(r: Response, config: Config, kid: string)
    requires r.Document? && Withdraws(r, config, kid)
    ensures kid !in KeysFrom(r.candidates, config)
  {
    hide Offers;
    if kid in KeysFrom(r.candidates, config) {
      FetchedExactly(r.candidates, config, kid, KeysFrom(r.candidates, config)[kid]);
    }
  }

  /** The first call for a withdrawn identity that finds the window open, the set outlived
      and the provider delivering is refused, and the set no longer holds the key. */
  lemma WithdrawnIsRefused(c: Cache, config: Config, call: Call)
    requires call.kid != "" && Withdraws(call.response, config, call.kid)
    requires WindowOpen(c, call.now) && Outlived(c, config, call.checkedAt) && Delivers(call.response, config)
    ensures Resolution(c, config, call) == Err(UnknownKey)
    ensures !Holds(After(c, config, call), call.kid)
  {
    hide KeysFrom, Withdraws, Resolution, After, Refetches, Outlived, WindowOpen;
    RefetchesExactly(c, config, call);
    AnswersExactly(c, config, call);
    WithdrawnIsNotFetched(call.response, config, call.kid);
  }

  /** No response of the run offers the identity. */
  predicate StaysWithdrawn(calls: seq<Call>, config: Config, kid: string) {
    forall i :: 0 <= i < |calls| ==> Withdraws(calls[i].response, config, kid)
  }

  /** Once the set is without it, no later call gets the key as long as it stays withdrawn. */
  lemma {:induction false} WithdrawnStaysRefused(c: Cache, config: Config, calls: seq<Call>, kid: string)
    requires kid != "" && !Holds(c, kid) && StaysWithdrawn(calls, config, kid)
    ensures !Holds(Run(c, config, calls), kid)
    ensures forall i :: 0 <= i < |calls| && calls[i].kid == kid ==> Resolution(Run(c, config, calls[..i]), config, calls[i]).Err?
    decreases |calls|
  {
    hide Resolution, After, Withdraws, Holds;
    if calls != [] {
      var next := After(c, config, calls[0]);
      MissingStaysMissing(c, config, calls[0], kid);
      WithdrawnStaysRefused(next, config, calls[1..], kid);
      forall i | 0 <= i < |calls| && calls[i].kid == kid
        ensures Resolution(Run(c, config, calls[..i]), config, calls[i]).Err?
      {
        if i > 0 {
          assert calls[..i][0] == calls[0] && calls[..i][1..] == calls[1..][..i - 1];
          assert calls[1..][i - 1] == calls[i];
        }
      }
    }
  }

  lemma MissingStaysMissing(c: Cache, config: Config, call: Call, kid: string)
    requires kid != "" && !Holds(c, kid) && Withdraws(call.response, config, kid)
    ensures !Holds(After(c, config, call), kid)
    ensures call.kid == kid ==> Resolution(c, config, call).Err?
  {
    hide KeysFrom, Withdraws, Resolution, After, Refetches, WindowOpen, NothingAnswers, Outlived;
    RefetchesExactly(c, config, call);
    AnswersExactly(c, config, call);
    if Delivers(call.response, config) {
      WithdrawnIsNotFetched(call.response, config, kid);
    }
  }
}
