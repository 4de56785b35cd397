/** The mutex-guarded fields of the key service, and the assertion signer that builds on the
    cache.  Each method below is one critical section of the source; the cache's step system
    interleaves exactly these. */
module KeyService {
  import opened Prelude
  import opened SigningKeys
  import opened KeyCache
  import opened KeyCacheTheorems

  class PublicKeyCache {
    var publicSet: Option<JwkSet>
    var publicExpiresAt: Time
    var publicVersion: int
    var publicGeneration: nat

    function View(): Cache
      reads this
    {
      Cache(publicSet, publicExpiresAt, publicVersion, publicGeneration)
    }

    constructor ()
      ensures View() == Cache(None, ZERO_TIME, 0, 0)
    {
      publicSet, publicExpiresAt, publicVersion, publicGeneration := None, ZERO_TIME, 0, 0;
    }

    /** The read-locked section. */
    method TryRead(version: int, now: Time) returns (r: Option<JwkSet>)
      ensures r == if Hit(View(), version, now) then publicSet else None
    {
      if publicSet.Some? && publicVersion == version && now < publicExpiresAt {
        return publicSet;
      }
      return None;
    }

    /** The write-locked section, up to the join of the flight. */
    method Enter(version: int, now: Time) returns (outcome: LockedOutcome)
      modifies this
      ensures (View(), outcome) == Locked(old(View()), version, now)
    {
      if publicVersion > version { return Retry; }
      if publicVersion != version {
        publicGeneration := publicGeneration + 1;
        publicSet := None;
        publicVersion := version;
      }
      if publicSet.Some? && now < publicExpiresAt { return Serve(publicSet.value); }
      return Join(publicGeneration);
    }

    /** The end of a rebuild whose version was confirmed. */
    method Publish(generation: nat, jwks: JwkSet, now: Time) returns (result: FlightResult)
      modifies this
      ensures (View(), result) == AfterPublish(old(View()), generation, jwks, now)
    {
      if publicGeneration != generation { return Invalidated; }
      publicSet := Some(jwks);
      publicExpiresAt := now + CACHE_TTL;
      return Built(jwks);
    }

    method Invalidate()
      modifies this
      ensures View() == Cleared(old(View()))
    {
      publicGeneration := publicGeneration + 1;
      publicSet := None;
      publicExpiresAt := ZERO_TIME;
    }
  }

  // ---------------------------------------------------------------- the assertion signer

  const ASSERTION_LIFETIME: Time := 300_000

  datatype Assertion = Assertion(
    kid: string, pair: int, issuer: string, subject: string, audience: seq<string>, issuedAt: Time, expiresAt: Time)

  /** What one usability check reads: a listing with its clock reading, then PublicJWKSet. */
  datatype Reading = Reading(keys: Option<KeyList>, now: Time, published: Option<JwkSet>)

  ghost predicate Advertised(jwks: JwkSet, kid: string) {
    exists j :: j in jwks && j.kid == Some(kid)
  }

  /** currentUsableCIMDAssertionKey over its reads. */
  ghost function CurrentUsable(o: Reading): (r: Option<SigningKey>) {
    if o.keys.None? then None
    else
      var key := EffectiveCurrent(o.keys.value, o.now);
      if key.None? || key.value.algorithm != ES256 || o.published.None? then None
      else if Advertised(o.published.value, key.value.kid) then key else None
  }

  /** SignClientAssertion over its reads: two usability checks that must agree on the key id, then
      the signature with the decrypted private half, which must match the published key.
      decrypted is the key pair that decryption and parsing yield. */
  ghost function SignClientAssertion(clientId: string, tokenEndpoint: string, first: Reading, second: Reading,
                                     decrypted: Option<int>, now: Time): (r: Option<Assertion>)
  {
    if clientId == "" || tokenEndpoint == "" then None
    else
      var key := CurrentUsable(first);
      var again := CurrentUsable(second);
      if key.None? || again.None? || again.value.kid != key.value.kid || decrypted.None? then None
      else
        var jwk := PublicJwkFor(again.value);
        if jwk.None? || jwk.value.point != decrypted.value then None
        else Some(Assertion(again.value.kid, decrypted.value, clientId, clientId, [tokenEndpoint], now, now + ASSERTION_LIFETIME))
  }

  /** The instants of a run at which one usability check made its reads.  The listing is taken in
      state listAt; call is the cache call, at its loop head in state callAt and returned in
      state returnAt. */
  datatype Instants = Instants(listAt: nat, call: nat, callAt: nat, returnAt: nat)

  ghost predicate Observed(tr: seq<State>, o: Reading, at: Instants)
    requires Run(tr)
  {
    && at.listAt <= at.callAt <= at.returnAt < |tr|
    && (o.keys.Some? ==> |tr[at.listAt].history| > 0 && Enumerates(o.keys.value, Last(tr[at.listAt]).table, CimdClientAuthentication))
    && at.call in tr[at.callAt].readers && tr[at.callAt].readers[at.call].phase.AtHead?
    && (o.published.Some? ==>
          && at.call in tr[at.returnAt].readers && tr[at.returnAt].readers[at.call].phase.Returned?
          && tr[at.returnAt].readers[at.call].phase.jwks == o.published.value)
  }

  lemma {:induction false} RemovedStaysRemoved(tr: seq<State>, i: nat, j: nat)
    requires Run(tr) && i <= j < |tr|
    ensures |tr[i].history| > 0 && |tr[j].history| > 0
    ensures Last(tr[i]).table.removed <= Last(tr[j]).table.removed
    ensures WellFormed(Last(tr[j]).table)
  {
    RunHistory(tr, i, j);
    HistoryFaithful(tr, j);
    if i < j {
      RemovedStaysRemoved(tr, i, j - 1);
      StepRetires(tr, j - 1);
    }
  }

  lemma StepRetires(tr: seq<State>, j: nat)
    requires Run(tr) && j + 1 < |tr| && |tr[j].history| > 0
    ensures |tr[j + 1].history| > 0 && Last(tr[j]).table.removed <= Last(tr[j + 1]).table.removed
  {
    assert NextAt(tr, j);
    var a :| Step(tr[j], a, tr[j + 1]);
    if a.Mutate? {
      assert IdsRetired(Last(tr[j]).table, a.commit.table);
      assert Last(tr[j + 1]) == a.commit;
    } else {
      assert tr[j + 1].history == tr[j].history;
    }
  }

  /** A signed assertion names a key that was effective current in the second listing, was active
      in the repository then, and was advertised by a fresh build of the repository at an instant
      of the second cache call; its signature verifies under the published key; and it speaks for
      the client to the endpoint for the fixed lifetime. */
  lemma SignsWithPublishedCurrentKey(tr: seq<State>, clientId: string, endpoint: string, first: Reading, at1: Instants,
                                     second: Reading, at2: Instants, decrypted: Option<int>, now: Time) returns (k: nat)
    requires Run(tr) && Observed(tr, first, at1) && Observed(tr, second, at2) && at1.returnAt <= at2.listAt
    requires SignClientAssertion(clientId, endpoint, first, second, decrypted, now).Some?
    ensures var a := SignClientAssertion(clientId, endpoint, first, second, decrypted, now).value;
            && at2.callAt <= k <= at2.returnAt && |tr[k].history| > 0 && |tr[at2.listAt].history| > 0
            && BuildNow(tr[k]).Some? && Advertised(BuildNow(tr[k]).value, a.kid)
            && second.keys.Some? && EffectiveCurrent(second.keys.value, second.now).Some?
            && var key := EffectiveCurrent(second.keys.value, second.now).value;
               && key.kid == a.kid && key in DomainKeys(Last(tr[at2.listAt]).table, CimdClientAuthentication)
               && key.activatesAt <= second.now && PublicJwkFor(key).Some? && PublicJwkFor(key).value.point == a.pair
               && a.issuer == a.subject == clientId && a.audience == [endpoint] && a.expiresAt == a.issuedAt + ASSERTION_LIFETIME
  {
    k := Linearizable(tr, at2.callAt, at2.returnAt, at2.call);
    var key := EffectiveCurrent(second.keys.value, second.now);
    assert key in second.keys.value;
  }

  /** The public half that the key carries, or that is derived from it, is its own. */
  predicate Healthy(k: SigningKey) {
    k.publicJwk.Legacy? || k.publicJwk == Stored(PublicJwk(Some(k.kid), Some("ES256"), Some("sig"), Some("P-256"), k.pair))
  }

  /** A healthy key that both checks select and find advertised does sign, under its own id and
      with its own private half. */
  lemma HealthyKeySigns(clientId: string, endpoint: string, first: Reading, second: Reading, k: SigningKey, now: Time)
    requires clientId != "" && endpoint != "" && k.algorithm == "ES256" && Healthy(k)
    requires forall o :: o in {first, second} ==>
               && o.keys.Some? && EffectiveCurrent(o.keys.value, o.now) == Some(k)
               && o.published.Some? && exists j :: j in o.published.value && j.kid == Some(k.kid)
    ensures SignClientAssertion(clientId, endpoint, first, second, Some(k.pair), now) ==
              Some(Assertion(k.kid, k.pair, clientId, clientId, [endpoint], now, now + ASSERTION_LIFETIME))
  {
    PublishedFormIsOwn(k);
    assert first in {first, second} && second in {first, second};
  }

  /** A call that starts after a key was deleted never signs with it. */
  lemma NeverSignsWithDeletedKey(tr: seq<State>, d: nat, kid: string, clientId: string, endpoint: string, first: Reading, at1: Instants,
                                 second: Reading, decrypted: Option<int>, now: Time)
    requires Run(tr) && Observed(tr, first, at1)
    requires d <= at1.listAt && |tr[d].history| > 0 && kid in Last(tr[d]).table.removed
    requires SignClientAssertion(clientId, endpoint, first, second, decrypted, now).Some?
    ensures SignClientAssertion(clientId, endpoint, first, second, decrypted, now).value.kid != kid
  {
    RemovedStaysRemoved(tr, d, at1.listAt);
    var key := EffectiveCurrent(first.keys.value, first.now);
    assert key in first.keys.value;
    assert key.value in DomainKeys(Last(tr[at1.listAt]).table, CimdClientAuthentication);
  }
}
