/** The key lifecycle engine: its methods over a mutable repository, and what every run of any
    number of replicas keeps. */
module KeyLifecycle {
  import opened Prelude
  import opened SigningKeys

  /** The publication grace period of a key that is not the first of its domain. */
  const GRACE_PERIOD: Time := 600_000

  // ---------------------------------------------------------------- table facts

  ghost predicate NonEmpty(t: KeyTable, d: KeyDomain) {
    exists kid :: Holds(t, d, kid)
  }

  ghost predicate SoleCurrent(t: KeyTable, d: KeyDomain, kid: string) {
    && Holds(t, d, kid) && t.active[kid].isCurrent
    && forall other :: Holds(t, d, other) && t.active[other].isCurrent ==> other == kid
  }

  /** Exactly one active key of the domain carries the current marker. */
  ghost predicate OneCurrent(t: KeyTable, d: KeyDomain) {
    exists kid :: SoleCurrent(t, d, kid)
  }

  ghost predicate CanSign(t: KeyTable, d: KeyDomain, now: Time) {
    exists kid :: Holds(t, d, kid) && t.active[kid].activatesAt <= now
  }

  /** The keys of the domain stay, with their activation times; no id is lost. */
  ghost predicate KeepsActivations(t: KeyTable, t': KeyTable, d: KeyDomain) {
    && t.active.Keys <= t'.active.Keys && t'.removed == t.removed
    && (forall kid :: kid in t.active ==> Holds(t', d, kid) == Holds(t, d, kid))
    && (forall kid :: Holds(t, d, kid) ==> t'.active[kid].activatesAt == t.active[kid].activatesAt)
  }

  lemma CreateKeepsDomain(t: KeyTable, key: SigningKey, now: Time)
    requires WellFormed(t) && CreateAndSetCurrent(t, key).Ok?
    requires CanSign(t, key.domain, now) || key.activatesAt <= now
    ensures var t' := CreateAndSetCurrent(t, key).value;
            && OneCurrent(t', key.domain) && CanSign(t', key.domain, now)
            && WellFormed(t') && Holds(t', key.domain, key.kid) && t'.active[key.kid] == key.(isCurrent := true)
            && KeepsActivations(t, t', key.domain)
  {
    var t' := CreateAndSetCurrent(t, key).value;
    assert SoleCurrent(t', key.domain, key.kid);
    if CanSign(t, key.domain, now) {
      var kid :| Holds(t, key.domain, kid) && t.active[kid].activatesAt <= now;
      assert Holds(t', key.domain, kid);
    }
  }

  lemma PromoteKeepsDomain(t: KeyTable, d: KeyDomain, kid: string, at: Time, now: Time)
    requires WellFormed(t) && SetCurrentInDomain(t, d, kid, at).Ok? && at <= now
    ensures var t' := SetCurrentInDomain(t, d, kid, at).value;
            && OneCurrent(t', d) && CanSign(t', d, now)
            && WellFormed(t') && t'.active.Keys == t.active.Keys && t'.removed == t.removed
            && (forall k :: k != kid ==> Holds(t', d, k) == Holds(t, d, k))
            && (forall k :: k != kid && Holds(t, d, k) ==> t'.active[k].activatesAt == t.active[k].activatesAt)
  {
    assert SoleCurrent(SetCurrentInDomain(t, d, kid, at).value, d, kid);
  }

  /** Promotion decides who signs: from its activation on, the promoted key is the effective one,
      for every order of the listing. */
  lemma PromotedKeySigns(t: KeyTable, d: KeyDomain, kid: string, at: Time, now: Time, keys: KeyList)
    requires WellFormed(t) && SetCurrentInDomain(t, d, kid, at).Ok? && at <= now
    requires Enumerates(keys, SetCurrentInDomain(t, d, kid, at).value, d)
    ensures var t' := SetCurrentInDomain(t, d, kid, at).value;
            kid in t'.active && EffectiveCurrent(keys, now) == Some(t'.active[kid])
  {
    var t' := SetCurrentInDomain(t, d, kid, at).value;
    PromoteKeepsDomain(t, d, kid, at, now);
    SoleActiveCurrentSelected(t', d, kid, now, keys);
  }

  /** The only key with the current marker is the effective one as soon as it is active. */
  lemma SoleActiveCurrentSelected(t: KeyTable, d: KeyDomain, kid: string, now: Time, keys: KeyList)
    requires WellFormed(t) && Enumerates(keys, t, d) && SoleCurrent(t, d, kid) && t.active[kid].activatesAt <= now
    ensures EffectiveCurrent(keys, now) == Some(t.active[kid])
  {
    ListedKeySelected(t, d, keys, now, kid);
    EffectiveCurrentIsFirstMaximum(keys, now);
    assert Some(t.active[kid]) in keys;
    var i :| 0 <= i < |keys| && keys[i] == Some(t.active[kid]);
    assert ActiveAt(keys, i, now);
    assert EffectiveCurrent(keys, now).value.isCurrent;
  }

  /** Until a current key is active, the latest activated key signs: nothing is selected ahead of
      its time, and no active key was activated later than the selected one. */
  lemma LatestSignsMeanwhile(keys: KeyList, now: Time, k: SigningKey)
    requires forall i :: ActiveAt(keys, i, now) ==> !keys[i].value.isCurrent
    requires Some(k) in keys && k.activatesAt <= now
    ensures EffectiveCurrent(keys, now).Some?
    ensures k.activatesAt <= EffectiveCurrent(keys, now).value.activatesAt <= now
  {
    EffectiveCurrentIsFirstMaximum(keys, now);
    var i :| 0 <= i < |keys| && keys[i] == Some(k);
    assert ActiveAt(keys, i, now);
  }

  /** A successful deletion keeps the current marker, keeps a key that can sign, and does not
      change which key signs: dropping the deleted entry from the listing selects the same key. */
  lemma DeleteKeepsDomain(t: KeyTable, d: KeyDomain, kid: string, keys: KeyList, now: Time)
    requires WellFormed(t) && Enumerates(keys, t, d) && OneCurrent(t, d) && CanSign(t, d, now)
    requires DeleteInDomain(t, d, kid, keys, now).Ok?
    ensures var t' := DeleteInDomain(t, d, kid, keys, now).value;
            OneCurrent(t', d) && CanSign(t', d, now)
    ensures forall i :: 0 <= i < |keys| && keys[i] == Some(t.active[kid]) ==>
              EffectiveCurrent(keys[..i] + keys[i + 1..], now) == EffectiveCurrent(keys, now)
  {
    var t' := DeleteInDomain(t, d, kid, keys, now).value;
    var current :| SoleCurrent(t, d, current);
    assert SoleCurrent(t', d, current);
    var able :| Holds(t, d, able) && t.active[able].activatesAt <= now;
    ListedKeySelected(t, d, keys, now, able);
    var best := EffectiveCurrent(keys, now).value;
    assert Holds(t', d, best.kid);
    forall i | 0 <= i < |keys| && keys[i] == Some(t.active[kid])
      ensures EffectiveCurrent(keys[..i] + keys[i + 1..], now) == EffectiveCurrent(keys, now)
    {
      RemovingUnselectedKeepsSelection(keys, now, i);
    }
  }

  lemma ListedKeySelected(t: KeyTable, d: KeyDomain, keys: KeyList, now: Time, kid: string)
    requires WellFormed(t) && Enumerates(keys, t, d)
    requires Holds(t, d, kid) && t.active[kid].activatesAt <= now
    ensures EffectiveCurrent(keys, now).Some?
    ensures var best := EffectiveCurrent(keys, now).value;
            Holds(t, d, best.kid) && t.active[best.kid] == best && best.activatesAt <= now
  {
    assert t.active[kid] in DomainKeys(t, d);
    assert Some(t.active[kid]) in keys;
    var i :| 0 <= i < |keys| && keys[i] == Some(t.active[kid]);
    assert ActiveAt(keys, i, now);
    EffectiveCurrentIsFirstMaximum(keys, now);
  }

  /** The operations of one domain leave every other domain's keys alone. */
  lemma OtherDomainsUntouched(t: KeyTable, key: SigningKey, d: KeyDomain, kid: string, keys: KeyList, at: Time, other: KeyDomain)
    requires WellFormed(t) && key.domain == d && other != d
    ensures CreateAndSetCurrent(t, key).Ok? ==> DomainKeys(CreateAndSetCurrent(t, key).value, other) == DomainKeys(t, other)
    ensures SetCurrentInDomain(t, d, kid, at).Ok? ==> DomainKeys(SetCurrentInDomain(t, d, kid, at).value, other) == DomainKeys(t, other)
    ensures DeleteInDomain(t, d, kid, keys, at).Ok? ==> DomainKeys(DeleteInDomain(t, d, kid, keys, at).value, other) == DomainKeys(t, other)
  {
    CreateElsewhere(t, key, other);
    PromoteElsewhere(t, d, kid, at, other);
    DeleteElsewhere(t, d, kid, keys, at, other);
  }

  lemma CreateElsewhere(t: KeyTable, key: SigningKey, other: KeyDomain)
    requires WellFormed(t) && other != key.domain
    ensures CreateAndSetCurrent(t, key).Ok? ==> DomainKeys(CreateAndSetCurrent(t, key).value, other) == DomainKeys(t, other)
  {
    if CreateAndSetCurrent(t, key).Ok? {
      SameKeysElsewhere(t, CreateAndSetCurrent(t, key).value.active, other);
    }
  }

  lemma PromoteElsewhere(t: KeyTable, d: KeyDomain, kid: string, at: Time, other: KeyDomain)
    requires WellFormed(t) && other != d
    ensures SetCurrentInDomain(t, d, kid, at).Ok? ==> DomainKeys(SetCurrentInDomain(t, d, kid, at).value, other) == DomainKeys(t, other)
  {
    if SetCurrentInDomain(t, d, kid, at).Ok? {
      SameKeysElsewhere(t, SetCurrentInDomain(t, d, kid, at).value.active, other);
    }
  }

  lemma DeleteElsewhere(t: KeyTable, d: KeyDomain, kid: string, keys: KeyList, at: Time, other: KeyDomain)
    requires WellFormed(t) && other != d
    ensures DeleteInDomain(t, d, kid, keys, at).Ok? ==> DomainKeys(DeleteInDomain(t, d, kid, keys, at).value, other) == DomainKeys(t, other)
  {
    if DeleteInDomain(t, d, kid, keys, at).Ok? {
      SameKeysElsewhere(t, DeleteInDomain(t, d, kid, keys, at).value.active, other);
    }
  }

  lemma SameKeysElsewhere(t: KeyTable, active: map<string, SigningKey>, other: KeyDomain)
    requires forall kid :: kid in t.active && t.active[kid].domain == other ==> kid in active && active[kid] == t.active[kid]
    requires forall kid :: kid in active && active[kid].domain == other ==> kid in t.active && t.active[kid] == active[kid]
    ensures DomainKeys(KeyTable(active, t.removed), other) == DomainKeys(t, other)
    ensures forall removed :: DomainKeys(KeyTable(active, removed), other) == DomainKeys(t, other)
  {
    forall removed ensures DomainKeys(KeyTable(active, removed), other) == DomainKeys(t, other) {
      var t' := KeyTable(active, removed);
      forall k | k in DomainKeys(t, other) ensures k in DomainKeys(t', other) {
        var kid :| kid in t.active && t.active[kid] == k;
        assert active[kid] == k;
      }
      forall k | k in DomainKeys(t', other) ensures k in DomainKeys(t, other) {
        var kid :| kid in active && active[kid] == k;
        assert t.active[kid] == k;
      }
    }
  }

  // ---------------------------------------------------------------- the engine's methods

  /** The repository as the engine sees it. */
  class KeyRepository {
    var table: KeyTable
    var version: int

    constructor ()
      ensures table == KeyTable(map[], {}) && version == 0
    {
      table := KeyTable(map[], {});
      version := 0;
    }

    /** Clears the current marker of every key of a domain, one key at a time. */
    method Demote(d: KeyDomain)
      modifies this`table
      ensures table == old(table).(active := Demoted(old(table).active, d))
    {
      var pending := table.active.Keys;
      while pending != {}
        invariant pending <= table.active.Keys == old(table).active.Keys
        invariant table.removed == old(table).removed
        invariant forall kid :: kid in pending ==> table.active[kid] == old(table).active[kid]
        invariant forall kid :: kid in table.active && kid !in pending ==>
                    table.active[kid] == Demoted(old(table).active, d)[kid]
      {
        var kid :| kid in pending;
        if table.active[kid].domain == d {
          table := table.(active := table.active[kid := table.active[kid].(isCurrent := false)]);
        }
        pending := pending - {kid};
      }
      assert table.active == Demoted(old(table).active, d);
    }

    method CreateAndSetCurrent(key: SigningKey) returns (error: Option<RepositoryError>)
      modifies this
      ensures match SigningKeys.CreateAndSetCurrent(old(table), key)
              case Ok(t) => error.None? && table == t && version > old(version)
              case Err(e) => error == Some(e) && unchanged(this)
    {
      if key.domain.Unsupported? { return Some(InvalidDomain); }
      if key.kid in table.active || key.kid in table.removed { return Some(Conflict); }
      Demote(key.domain);
      table := table.(active := table.active[key.kid := key.(isCurrent := true)]);
      version := version + 1;
      return None;
    }

    method Create(key: SigningKey) returns (error: Option<RepositoryError>)
      modifies this
      ensures match SigningKeys.Create(old(table), key)
              case Ok(t) => error.None? && table == t && version > old(version)
              case Err(e) => error == Some(e) && unchanged(this)
    {
      if key.domain.Unsupported? { return Some(InvalidDomain); }
      if key.kid in table.active || key.kid in table.removed { return Some(Conflict); }
      table := table.(active := table.active[key.kid := key]);
      version := version + 1;
      return None;
    }

    method SetCurrentInDomain(d: KeyDomain, kid: string, activatesAt: Time) returns (error: Option<RepositoryError>)
      modifies this
      ensures match SigningKeys.SetCurrentInDomain(old(table), d, kid, activatesAt)
              case Ok(t) => error.None? && table == t && version > old(version)
              case Err(e) => error == Some(e) && unchanged(this)
    {
      if kid !in table.active || table.active[kid].domain != d { return Some(NotFound); }
      Demote(d);
      table := table.(active := table.active[kid := table.active[kid].(isCurrent := true, activatesAt := activatesAt)]);
      version := version + 1;
      return None;
    }

    /** keys is the listing that the repository takes under its own lock. */
    method DeleteInDomain(d: KeyDomain, kid: string, keys: KeyList, now: Time) returns (error: Option<RepositoryError>)
      modifies this
      ensures match SigningKeys.DeleteInDomain(old(table), d, kid, keys, now)
              case Ok(t) => error.None? && table == t && version > old(version)
              case Err(e) => error == Some(e) && unchanged(this)
    {
      if kid !in table.active || table.active[kid].domain != d { return Some(NotFound); }
      if |keys| <= 1 { return Some(LastActiveKey); }
      if table.active[kid].isCurrent { return Some(CurrentKey); }
      var current := SelectEffectiveCurrent(keys, now);
      if current.Some? && current.value.kid == kid { return Some(EffectiveCurrentKey); }
      table := KeyTable(table.active - {kid}, table.removed + {kid});
      version := version + 1;
      return None;
    }
  }

  datatype EngineError = Repository(error: RepositoryError) | UnsupportedAlgorithm | EmptyKid | Unavailable | TimedOut

  datatype Policy = Policy(domain: KeyDomain, activationGrace: Time)

  /** The key that GenerateAndStore persists.  A zero activation time means now, delayed by the
      policy's grace when the key becomes current. */
  function NewKey(policy: Policy, kid: string, pair: int, isCurrent: bool, activatesAt: Option<Time>, now: Time): SigningKey {
    var at := match activatesAt
      case Some(t) => t
      case None => if isCurrent then now + policy.activationGrace else now;
    var bare := SigningKey(kid, policy.domain, ES256, pair, Legacy, isCurrent, at);
    bare.(publicJwk := Stored(DerivedJwk(bare)))
  }

  /** fault stands for a failure of key generation, of the branch key or of encryption. */
  method GenerateAndStore(repo: KeyRepository, policy: Policy, kid: string, pair: int, algorithm: string, isCurrent: bool,
                          activatesAt: Option<Time>, now: Time, fault: Option<EngineError>)
    returns (r: Result<SigningKey, EngineError>)
    modifies repo
    ensures r.Ok? ==>
              && r.value == NewKey(policy, kid, pair, isCurrent, activatesAt, now)
              && (if isCurrent then CreateAndSetCurrent(old(repo.table), r.value) else Create(old(repo.table), r.value)) == Ok(repo.table)
              && repo.version > old(repo.version)
    ensures r.Ok? ==>
              && r.value.kid == kid && r.value.domain == policy.domain && r.value.pair == pair && r.value.isCurrent == isCurrent
              && r.value.algorithm == "ES256"
              && r.value.activatesAt == (if activatesAt.Some? then activatesAt.value else if isCurrent then now + policy.activationGrace else now)
              && PublicJwkFor(r.value).Some? && PublicJwkFor(r.value).value.point == pair
    ensures r.Err? ==> unchanged(repo)
    ensures r.Ok? <==>
              && (algorithm == "" || algorithm == ES256) && kid != "" && fault.None? && !policy.domain.Unsupported?
              && kid !in old(repo.table).active && kid !in old(repo.table).removed
  {
    if policy.domain.Unsupported? { return Err(Repository(InvalidDomain)); }
    if algorithm != "" && algorithm != ES256 { return Err(UnsupportedAlgorithm); }
    if kid == "" { return Err(EmptyKid); }
    if fault.Some? { return Err(fault.value); }
    var key := NewKey(policy, kid, pair, isCurrent, activatesAt, now);
    var error: Option<RepositoryError>;
    if isCurrent {
      error := repo.CreateAndSetCurrent(key);
    } else {
      error := repo.Create(key);
    }
    if error.Some? { return Err(Repository(error.value)); }
    return Ok(key);
  }

  /** The failures that the environment injects into one bootstrap call: before the closure
      runs, in the count, in the generation, after the closure returned, and in the probe. */
  datatype BootstrapFaults = BootstrapFaults(
    lock: Option<EngineError>,
    count: Option<EngineError>,
    generate: Option<EngineError>,
    commit: Option<EngineError>,
    probe: bool)

  predicate Undisturbed(faults: BootstrapFaults) {
    faults.lock.None? && faults.count.None? && faults.generate.None? && faults.commit.None?
  }

  /** The domain is supported and the key id has never been used. */
  predicate Storable(t: KeyTable, policy: Policy, kid: string) {
    !policy.domain.Unsupported? && kid != "" && kid !in t.active && kid !in t.removed
  }

  /** The bootstrap call under the lock, with its recovery probe.  Success means that the domain
      is not empty; undisturbed, the call succeeds and creates a first key exactly when the domain
      was empty. */
  method EnsureInitialKey(repo: KeyRepository, policy: Policy, kid: string, pair: int, activatesAt: Time, now: Time, faults: BootstrapFaults)
    returns (created: Option<SigningKey>, error: Option<EngineError>)
    modifies repo
    ensures error.None? ==> NonEmpty(repo.table, policy.domain)
    ensures created.Some? ==>
              && !NonEmpty(old(repo.table), policy.domain)
              && created.value.activatesAt == activatesAt
              && CreateAndSetCurrent(old(repo.table), created.value) == Ok(repo.table)
    ensures NonEmpty(old(repo.table), policy.domain) ==> unchanged(repo)
    ensures Undisturbed(faults) && Storable(old(repo.table), policy, kid) ==>
              error.None? && (created.Some? <==> !NonEmpty(old(repo.table), policy.domain))
  {
    var key: Option<SigningKey> := None;
    var fault := faults.lock;
    if fault.None? {
      fault := faults.count;
      if fault.None? {
        var count := CountActive(repo.table, policy.domain);
        if count == 0 {
          var r := GenerateAndStore(repo, policy, kid, pair, ES256, true, Some(activatesAt), now, faults.generate);
          match r
          case Ok(k) =>
            key := Some(k);
            assert Holds(repo.table, policy.domain, k.kid);
          case Err(e) => fault := Some(e);
        }
      }
      if fault.None? { fault := faults.commit; }
    }
    if fault.None? { return key, None; }
    if key.Some? || fault.value.TimedOut? {
      var count := CountActive(repo.table, policy.domain);
      if !faults.probe && count > 0 { return key, None; }
    }
    return None, fault;
  }

  /** Count-and-create under the lock.  The first key of a domain takes the first activation time
      and every other key the later one.  A lock that fails after the closure ran reports an
      error although the key is stored. */
  method GenerateWithInitialActivation(repo: KeyRepository, policy: Policy, kid: string, pair: int, first: Time, later: Time, now: Time,
                                       faults: BootstrapFaults)
    returns (r: Result<SigningKey, EngineError>)
    modifies repo
    ensures r.Ok? ==>
              && r.value.activatesAt == (if NonEmpty(old(repo.table), policy.domain) then later else first)
              && CreateAndSetCurrent(old(repo.table), r.value) == Ok(repo.table)
    ensures r.Ok? <==> Undisturbed(faults) && Storable(old(repo.table), policy, kid)
    ensures r.Err? && repo.table != old(repo.table) ==> faults.commit.Some? && kid in repo.table.active
  {
    if faults.lock.Some? { return Err(faults.lock.value); }
    if faults.count.Some? { return Err(faults.count.value); }
    var count := CountActive(repo.table, policy.domain);
    var activatesAt := first;
    if count > 0 { activatesAt := later; }
    r := GenerateAndStore(repo, policy, kid, pair, ES256, true, Some(activatesAt), now, faults.generate);
    if r.Ok? && faults.commit.Some? { return Err(faults.commit.value); }
  }

  /** Engine.Promote. */
  method Promote(repo: KeyRepository, policy: Policy, kid: string, activatesAt: Time) returns (error: Option<RepositoryError>)
    modifies repo
    ensures error.None? <==> !policy.domain.Unsupported? && Holds(old(repo.table), policy.domain, kid)
    ensures error.None? ==> Ok(repo.table) == SetCurrentInDomain(old(repo.table), policy.domain, kid, activatesAt)
    ensures error.Some? ==> unchanged(repo)
  {
    if policy.domain.Unsupported? { return Some(InvalidDomain); }
    error := repo.SetCurrentInDomain(policy.domain, kid, activatesAt);
  }

  method CountActive(t: KeyTable, d: KeyDomain) returns (count: nat)
    ensures count > 0 <==> NonEmpty(t, d)
  {
    count := 0;
    var pending := t.active.Keys;
    while pending != {}
      invariant pending <= t.active.Keys
      invariant count > 0 <==> exists kid :: kid !in pending && Holds(t, d, kid)
    {
      var kid :| kid in pending;
      pending := pending - {kid};
      if t.active[kid].domain == d {
        count := count + 1;
        assert Holds(t, d, kid);
      }
    }
  }

  /** Engine.Delete: its own guards over what it read, then the repository's guarded removal. */
  method Delete(repo: KeyRepository, policy: Policy, kid: string, keys: KeyList, now: Time, commitKeys: KeyList, commitNow: Time)
    returns (error: Option<RepositoryError>)
    modifies repo
    ensures error.None? <==>
              && !policy.domain.Unsupported?
              && DeleteInDomain(old(repo.table), policy.domain, kid, keys, now).Ok?
              && DeleteInDomain(old(repo.table), policy.domain, kid, commitKeys, commitNow).Ok?
    ensures error.None? ==> Ok(repo.table) == DeleteInDomain(old(repo.table), policy.domain, kid, commitKeys, commitNow)
    ensures error.Some? ==> unchanged(repo)
  {
    if policy.domain.Unsupported? { return Some(InvalidDomain); }
    if kid !in repo.table.active || repo.table.active[kid].domain != policy.domain { return Some(NotFound); }
    if |keys| <= 1 { return Some(LastActiveKey); }
    if repo.table.active[kid].isCurrent { return Some(CurrentKey); }
    var current := SelectEffectiveCurrent(keys, now);
    if current.Some? && current.value.kid == kid { return Some(EffectiveCurrentKey); }
    error := repo.DeleteInDomain(policy.domain, kid, commitKeys, commitNow);
  }
}
