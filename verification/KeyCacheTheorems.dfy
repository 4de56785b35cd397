/** What every run of the key cache satisfies, stated over the states of the run. */
module KeyCacheTheorems {
  import opened Prelude
  import opened SigningKeys
  import opened KeyCache

  /** The fresh build of the repository as it stands in one state. */
  ghost function BuildNow(s: State): Option<JwkSet>
    requires |s.history| > 0
  {
    PublicSet(DomainKeys(Last(s).table, CimdClientAuthentication))
  }

  // ---------------------------------------------------------------- the history of a run

  /** What one step may do to the history and to the cache's counters. */
  ghost predicate Advances(s: State, s': State) {
    && 0 < |s.history| <= |s'.history| <= |s.history| + 1 && s.history == s'.history[..|s.history|]
    && s.cache.version <= s'.cache.version && s.cache.generation <= s'.cache.generation
    && (s.cache.generation == s'.cache.generation ==> s.cache.version == s'.cache.version)
    && s.readers.Keys <= s'.readers.Keys
  }

  lemma StepAdvances(s: State, a: Action, s': State)
    requires |s.history| > 0 && Step(s, a, s')
    ensures Advances(s, s')
    ensures |s'.history| > |s.history| ==> Faithful(Last(s'))
  {
    if a.Mutate? {
      assert s'.history == s.history + [a.commit];
    } else {
      assert s'.history == s.history;
    }
  }

  lemma RunAdvances(tr: seq<State>, j: nat)
    requires Run(tr) && j + 1 < |tr|
    ensures Advances(tr[j], tr[j + 1])
    ensures |tr[j + 1].history| > |tr[j].history| ==> Faithful(Last(tr[j + 1]))
  {
    ReachableInv(tr, j);
    assert NextAt(tr, j);
    var a :| Step(tr[j], a, tr[j + 1]);
    StepAdvances(tr[j], a, tr[j + 1]);
  }

  lemma {:induction false} RunHistory(tr: seq<State>, i: nat, j: nat)
    requires Run(tr) && i <= j < |tr|
    ensures 0 < |tr[i].history| <= |tr[j].history| && tr[i].history == tr[j].history[..|tr[i].history|]
    ensures tr[i].cache.version <= tr[j].cache.version && tr[i].cache.generation <= tr[j].cache.generation
    ensures tr[i].cache.generation == tr[j].cache.generation ==> tr[i].cache.version == tr[j].cache.version
    ensures tr[i].readers.Keys <= tr[j].readers.Keys
  {
    if i == j {
      ReachableInv(tr, i);
    } else {
      RunHistory(tr, i, j - 1);
      RunAdvances(tr, j - 1);
      assert tr[i].history == tr[j - 1].history[..|tr[i].history|];
    }
  }

  /** Every length of the history between two states is reached at an instant between them. */
  lemma {:induction false} HistoryReached(tr: seq<State>, i: nat, j: nat, n: nat) returns (k: nat)
    requires Run(tr) && i <= j < |tr| && |tr[i].history| <= n <= |tr[j].history|
    ensures i <= k <= j && tr[k].history == tr[j].history[..n] && n > 0
  {
    RunHistory(tr, i, j);
    if n == |tr[j].history| {
      k := j;
    } else {
      RunAdvances(tr, j - 1);
      k := HistoryReached(tr, i, j - 1, n);
      assert tr[j].history[..n] == tr[j - 1].history[..n];
    }
  }

  lemma {:induction false} HistoryFaithful(tr: seq<State>, j: nat)
    requires Run(tr) && j < |tr|
    ensures forall k :: 0 <= k < |tr[j].history| ==> Faithful(tr[j].history[k])
  {
    if j > 0 {
      HistoryFaithful(tr, j - 1);
      RunAdvances(tr, j - 1);
    }
  }

  // ---------------------------------------------------------------- linearizability

  /** The commit that a reader in this phase refers to is not older than n commits. */
  predicate SeenFrom(p: ReaderPhase, n: nat) {
    match p
    case AtHead => true
    case Errored => true
    case Versioned(_, seen) => n <= seen + 1
    case Missed(_, seen) => n <= seen + 1
    case Waiting(_, seen, _, _) => n <= seen + 1
    case Received(_, seen, _, _) => n <= seen + 1
    case Returned(_, seen) => n <= seen + 1
  }

  lemma StepSeen(s: State, a: Action, s': State, r: nat, n: nat)
    requires |s.history| > 0 && Step(s, a, s') && r in s.readers && n <= |s.history| && SeenFrom(s.readers[r].phase, n)
    ensures r in s'.readers && SeenFrom(s'.readers[r].phase, n)
  {
  }

  lemma OneStepSeen(tr: seq<State>, j: nat, r: nat, n: nat)
    requires Run(tr) && j + 1 < |tr| && r in tr[j].readers && n <= |tr[j].history| && SeenFrom(tr[j].readers[r].phase, n)
    ensures r in tr[j + 1].readers && SeenFrom(tr[j + 1].readers[r].phase, n)
  {
    ReachableInv(tr, j);
    assert NextAt(tr, j);
    var a :| Step(tr[j], a, tr[j + 1]);
    StepSeen(tr[j], a, tr[j + 1], r, n);
  }

  lemma {:induction false} RunSeen(tr: seq<State>, i: nat, j: nat, r: nat)
    requires Run(tr) && i <= j < |tr| && r in tr[i].readers && tr[i].readers[r].phase.AtHead?
    ensures r in tr[j].readers && SeenFrom(tr[j].readers[r].phase, |tr[i].history|)
  {
    if i < j {
      RunSeen(tr, i, j - 1, r);
      RunHistory(tr, i, j - 1);
      OneStepSeen(tr, j - 1, r, |tr[i].history|);
    }
  }

  /** A set returned by PublicJWKSet is the fresh build of the repository at an instant inside
      the call: between any visit of the loop head and the return. */
  lemma Linearizable(tr: seq<State>, i: nat, j: nat, r: nat) returns (k: nat)
    requires Run(tr) && i <= j < |tr|
    requires r in tr[i].readers && tr[i].readers[r].phase.AtHead?
    requires r in tr[j].readers && tr[j].readers[r].phase.Returned?
    ensures i <= k <= j && |tr[k].history| > 0
    ensures BuildNow(tr[k]) == Some(tr[j].readers[r].phase.jwks)
  {
    var Returned(jwks, seen) := tr[j].readers[r].phase;
    ReachableInv(tr, j);
    RunSeen(tr, i, j, r);
    assert ReaderInv(tr[j].history, tr[j].cache.generation, tr[j].flights, tr[j].readers[r]);
    k := HistoryReached(tr, i, j, seen + 1);
    HistoryFaithful(tr, j);
    assert Last(tr[k]) == tr[j].history[seen];
  }

  /** The cached version never decreases and never passes the repository, one generation has one
      version, and a cached set is the build of the commit at the cached version. */
  lemma CacheTracksRepository(tr: seq<State>, i: nat, j: nat)
    requires Run(tr) && i <= j < |tr|
    ensures |tr[j].history| > 0 && tr[i].cache.version <= tr[j].cache.version <= Last(tr[j]).version
    ensures tr[i].cache.generation == tr[j].cache.generation ==> tr[i].cache.version == tr[j].cache.version
    ensures tr[j].cache.jwks.Some? ==>
              exists c :: c in tr[j].history && c.version == tr[j].cache.version
                          && PublicSet(DomainKeys(c.table, CimdClientAuthentication)) == tr[j].cache.jwks
  {
    RunHistory(tr, i, j);
    ReachableInv(tr, j);
    if tr[j].cache.jwks.Some? {
      HistoryFaithful(tr, j);
      assert tr[j].history[tr[j].cacheSeen] in tr[j].history;
    }
  }

  // ---------------------------------------------------------------- expiry

  ghost predicate ExpiryInv(s: State) {
    s.cache.jwks.Some? ==> s.cache.expiresAt <= s.now + 45_000
  }

  lemma StepKeepsExpiry(s: State, a: Action, s': State)
    requires |s.history| > 0 && ExpiryInv(s) && Step(s, a, s')
    ensures ExpiryInv(s')
  {
  }

  lemma {:induction false} ReachableExpiry(tr: seq<State>, j: nat)
    requires Run(tr) && j < |tr|
    ensures ExpiryInv(tr[j])
  {
    if j > 0 {
      ReachableExpiry(tr, j - 1);
      assert NextAt(tr, j - 1);
      var a :| Step(tr[j - 1], a, tr[j]);
      StepKeepsExpiry(tr[j - 1], a, tr[j]);
    }
  }

  /** A set is served from the cache only for 45 seconds: a reader served on the fast path, or under
      the write lock, reads its clock less than that after any earlier instant at which the cache
      already held the set with the same expiry. */
  lemma StaleSetIsNotServed(tr: seq<State>, i: nat, j: nat, a: Action, r: nat)
    requires Run(tr) && i <= j && j + 1 < |tr| && |tr[j].history| > 0 && Step(tr[j], a, tr[j + 1])
    requires tr[i].cache.jwks.Some? && tr[i].cache.expiresAt == tr[j].cache.expiresAt
    requires r in tr[j].readers && r in tr[j + 1].readers && !tr[j].readers[r].phase.Returned? && tr[j + 1].readers[r].phase.Returned?
    ensures a.FastPath? ==> a.t < tr[i].now + 45_000
    ensures a.LockedPath? ==> tr[j].now < tr[i].now + 45_000
  {
    ReachableExpiry(tr, i);
  }
}
