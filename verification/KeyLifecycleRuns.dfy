/** Runs of the key lifecycle: any number of replicas bootstrap and generate keys under the
    bootstrap lock while other callers promote and delete keys without it.  Time only moves
    forward.  Every call reads the clock before it waits for the lock, as the source does. */
module KeyLifecycleRuns {
  import opened Prelude
  import opened SigningKeys
  import opened KeyLifecycle

  const DOMAIN := CimdClientAuthentication

  datatype Kind = Ensure | Generate

  /** Where one bootstrap or generate call stands. */
  datatype Phase =
    | Called(kind: Kind, at: Time)
    | Holding(kind: Kind, at: Time)
    | Counted(kind: Kind, at: Time, empty: bool)
    | Wrote(kind: Kind)
    | Failed(kind: Kind)
    | Finished(kind: Kind, ok: bool)
  {
    predicate InLock() { Holding? || Counted? || Wrote? }
  }

  /** How a key came about in this run; recorded for the statements, never consulted. */
  datatype Origin = Origin(calledAt: Time, first: bool, promoted: bool)

  datatype System = System(
    table: KeyTable,
    now: Time,
    holder: Option<nat>,
    calls: map<nat, Phase>,
    origin: map<string, Origin>)

  datatype Action =
    | Tick(t: Time)
    | Call(r: nat, kind: Kind)
    | Acquire(r: nat)
    | Count(r: nat)
    | Write(r: nat, kid: string, pair: int)
    | Release(r: nat)
    | Fault(r: nat)
    | Conclude(r: nat, probes: bool)
    | PromoteKey(kid: string, at: Time)
    | DeleteKey(kid: string, keys: KeyList)
    | Elsewhere(table: KeyTable)

  function GeneratedKey(kid: string, pair: int, activatesAt: Time): SigningKey {
    NewKey(Policy(DOMAIN, 0), kid, pair, true, Some(activatesAt), activatesAt)
  }

  ghost predicate Step(s: System, a: Action, s': System) {
    match a
    case Tick(t) => t >= s.now && s' == s.(now := t)
    case Call(r, kind) => r !in s.calls && s' == s.(calls := s.calls[r := Called(kind, s.now)])
    case Acquire(r) =>
      && r in s.calls && s.calls[r].Called? && s.holder.None?
      && s' == s.(holder := Some(r), calls := s.calls[r := Holding(s.calls[r].kind, s.calls[r].at)])
    case Count(r) =>
      && r in s.calls && s.calls[r].Holding?
      && s' == s.(calls := s.calls[r := Counted(s.calls[r].kind, s.calls[r].at, !NonEmpty(s.table, DOMAIN))])
    case Write(r, kid, pair) => r in s.calls && s.calls[r].Counted? && WriteStep(s, r, kid, pair, s')
    case Release(r) =>
      && r in s.calls && s.calls[r].Wrote?
      && s' == s.(holder := None, calls := s.calls[r := Finished(s.calls[r].kind, true)])
    case Fault(r) =>
      && r in s.calls && !s.calls[r].Finished? && !s.calls[r].Failed?
      && s' == s.(holder := if s.calls[r].InLock() then None else s.holder, calls := s.calls[r := Failed(s.calls[r].kind)])
    case Conclude(r, probes) =>
      && r in s.calls && s.calls[r].Failed?
      && s' == s.(calls := s.calls[r := Finished(s.calls[r].kind, s.calls[r].kind.Ensure? && probes && NonEmpty(s.table, DOMAIN))])
    case PromoteKey(kid, at) =>
      && at <= s.now && SetCurrentInDomain(s.table, DOMAIN, kid, at).Ok?
      && s' == s.(
           table := SetCurrentInDomain(s.table, DOMAIN, kid, at).value,
           origin := if kid in s.origin then s.origin[kid := s.origin[kid].(promoted := true)] else s.origin)
    case DeleteKey(kid, keys) =>
      && Enumerates(keys, s.table, DOMAIN) && DeleteInDomain(s.table, DOMAIN, kid, keys, s.now).Ok?
      && s' == s.(table := DeleteInDomain(s.table, DOMAIN, kid, keys, s.now).value)
    case Elsewhere(t) =>
      && IdsRetired(s.table, t) && SameDomain(s.table, t)
      && s' == s.(table := t)
  }

  /** A mutation of other key domains. */
  ghost predicate SameDomain(t: KeyTable, t': KeyTable) {
    forall kid :: (Holds(t, DOMAIN, kid) || Holds(t', DOMAIN, kid)) ==>
      Holds(t, DOMAIN, kid) && Holds(t', DOMAIN, kid) && t.active[kid] == t'.active[kid]
  }

  /** The end of the closure: a bootstrap call leaves a populated domain alone; otherwise a new
      current key is stored, active at once when the count found none and after the grace period
      when it found some. */
  ghost predicate WriteStep(s: System, r: nat, kid: string, pair: int, s': System)
    requires r in s.calls && s.calls[r].Counted?
  {
    var Counted(kind, at, empty) := s.calls[r];
    var calls := s.calls[r := Wrote(kind)];
    if kind.Ensure? && !empty then s' == s.(calls := calls)
    else
      var key := GeneratedKey(kid, pair, if empty then at else at + GRACE_PERIOD);
      && CreateAndSetCurrent(s.table, key).Ok?
      && s' == s.(
           table := CreateAndSetCurrent(s.table, key).value,
           calls := calls,
           origin := s.origin[kid := Origin(at, empty, false)])
  }

  ghost predicate Next(s: System, s': System) {
    exists a :: Step(s, a, s')
  }

  /** A healthy start: no calls, nothing recorded, and an empty domain or one that can sign. */
  ghost predicate Init(s: System) {
    && WellFormed(s.table) && s.holder.None? && s.calls == map[] && s.origin == map[]
    && Healthy(s.table, s.now)
  }

  ghost predicate NextAt(tr: seq<System>, i: nat)
    requires i + 1 < |tr|
  {
    Next(tr[i], tr[i + 1])
  }

  ghost predicate Run(tr: seq<System>) {
    && |tr| > 0 && Init(tr[0])
    && forall i: nat :: i + 1 < |tr| ==> NextAt(tr, i)
  }

  // ---------------------------------------------------------------- the invariant

  ghost predicate Healthy(t: KeyTable, now: Time) {
    NonEmpty(t, DOMAIN) ==> OneCurrent(t, DOMAIN) && CanSign(t, DOMAIN, now)
  }

  /** Mutual exclusion, and what the count under the lock still tells. */
  ghost predicate LockInv(s: System) {
    && (forall r :: r in s.calls && s.calls[r].InLock() ==> s.holder == Some(r))
    && (forall r :: r in s.calls && s.calls[r].Counted? ==> s.calls[r].empty == !NonEmpty(s.table, DOMAIN))
    && (forall r :: r in s.calls && s.calls[r].Wrote? ==> NonEmpty(s.table, DOMAIN))
    && (forall r :: r in s.calls && s.calls[r].Finished? && s.calls[r].kind.Ensure? && s.calls[r].ok ==> NonEmpty(s.table, DOMAIN))
    && (forall r :: r in s.calls && (s.calls[r].Called? || s.calls[r].Holding? || s.calls[r].Counted?) ==> s.calls[r].at <= s.now)
  }

  ghost predicate OriginInv(s: System) {
    && (forall kid :: kid in s.origin ==> NonEmpty(s.table, DOMAIN) && (kid in s.table.active || kid in s.table.removed))
    && (forall a, b :: a in s.origin && b in s.origin && s.origin[a].first && s.origin[b].first ==> a == b)
    && (forall kid :: kid in s.origin && !s.origin[kid].first && !s.origin[kid].promoted && Holds(s.table, DOMAIN, kid)
          ==> s.table.active[kid].activatesAt == s.origin[kid].calledAt + GRACE_PERIOD)
  }

  ghost predicate Inv(s: System) {
    WellFormed(s.table) && Healthy(s.table, s.now) && LockInv(s) && OriginInv(s)
  }

  lemma WriteKeepsInv(s: System, r: nat, kid: string, pair: int, s': System)
    requires Inv(s) && r in s.calls && s.calls[r].Counted? && WriteStep(s, r, kid, pair, s')
    ensures Inv(s') && (NonEmpty(s.table, DOMAIN) ==> NonEmpty(s'.table, DOMAIN))
  {
    var Counted(kind, at, empty) := s.calls[r];
    if kind.Generate? || empty {
      var key := GeneratedKey(kid, pair, if empty then at else at + GRACE_PERIOD);
      CreateKeepsDomain(s.table, key, s.now);
      CreatedKeepsInv(s, r, key, s'.table, s');
    }
  }

  lemma CreatedKeepsInv(s: System, r: nat, key: SigningKey, t: KeyTable, s': System)
    requires Inv(s) && r in s.calls && s.calls[r].Counted?
    requires WellFormed(t) && OneCurrent(t, DOMAIN) && CanSign(t, DOMAIN, s.now) && KeepsActivations(s.table, t, DOMAIN)
    requires key.kid !in s.table.active && key.kid !in s.table.removed
    requires Holds(t, DOMAIN, key.kid) && t.active[key.kid].activatesAt == key.activatesAt
    requires !s.calls[r].empty ==> key.activatesAt == s.calls[r].at + GRACE_PERIOD
    requires s' == s.(
               table := t,
               calls := s.calls[r := Wrote(s.calls[r].kind)],
               origin := s.origin[key.kid := Origin(s.calls[r].at, s.calls[r].empty, false)])
    ensures Inv(s') && NonEmpty(s'.table, DOMAIN)
  {
    assert forall q :: q in s.calls && s.calls[q].Counted? ==> q == r;
    assert s.calls[r].empty ==> s.origin == map[];
  }

  lemma PromoteKeepsInv(s: System, kid: string, at: Time, s': System)
    requires Inv(s) && Step(s, PromoteKey(kid, at), s')
    ensures Inv(s') && NonEmpty(s'.table, DOMAIN)
  {
    PromoteKeepsDomain(s.table, DOMAIN, kid, at, s.now);
    PromotedKeepsInv(s, kid, s'.table, s');
  }

  lemma PromotedKeepsInv(s: System, kid: string, t: KeyTable, s': System)
    requires Inv(s) && Holds(s.table, DOMAIN, kid)
    requires WellFormed(t) && OneCurrent(t, DOMAIN) && CanSign(t, DOMAIN, s.now)
    requires t.active.Keys == s.table.active.Keys && t.removed == s.table.removed
    requires forall k :: k != kid ==> Holds(t, DOMAIN, k) == Holds(s.table, DOMAIN, k)
    requires forall k :: k != kid && Holds(s.table, DOMAIN, k) ==> t.active[k].activatesAt == s.table.active[k].activatesAt
    requires s' == s.(
               table := t,
               origin := if kid in s.origin then s.origin[kid := s.origin[kid].(promoted := true)] else s.origin)
    ensures Inv(s') && NonEmpty(s'.table, DOMAIN)
  {
    assert NonEmpty(s.table, DOMAIN);
    var able :| Holds(t, DOMAIN, able) && t.active[able].activatesAt <= s.now;
    assert NonEmpty(t, DOMAIN);
  }

  lemma DeleteKeepsInv(s: System, kid: string, keys: KeyList, s': System)
    requires Inv(s) && Step(s, DeleteKey(kid, keys), s')
    ensures Inv(s') && NonEmpty(s'.table, DOMAIN)
  {
    assert Holds(s.table, DOMAIN, kid);
    DeleteKeepsDomain(s.table, DOMAIN, kid, keys, s.now);
    var able :| Holds(s'.table, DOMAIN, able) && s'.table.active[able].activatesAt <= s.now;
  }

  lemma ElsewhereKeepsInv(s: System, t: KeyTable, s': System)
    requires Inv(s) && Step(s, Elsewhere(t), s')
    ensures Inv(s') && (NonEmpty(s.table, DOMAIN) ==> NonEmpty(s'.table, DOMAIN))
  {
    assert NonEmpty(s'.table, DOMAIN) ==> NonEmpty(s.table, DOMAIN);
    if NonEmpty(s.table, DOMAIN) {
      var current :| SoleCurrent(s.table, DOMAIN, current);
      assert SoleCurrent(s'.table, DOMAIN, current);
      var able :| Holds(s.table, DOMAIN, able) && s.table.active[able].activatesAt <= s.now;
      assert Holds(s'.table, DOMAIN, able);
    }
  }

  lemma StepKeepsInv(s: System, s': System)
    requires Inv(s) && Next(s, s')
    ensures Inv(s') && (NonEmpty(s.table, DOMAIN) ==> NonEmpty(s'.table, DOMAIN))
  {
    var a :| Step(s, a, s');
    match a
    case Write(r, kid, pair) => WriteKeepsInv(s, r, kid, pair, s');
    case PromoteKey(kid, at) => PromoteKeepsInv(s, kid, at, s');
    case DeleteKey(kid, keys) => DeleteKeepsInv(s, kid, keys, s');
    case Elsewhere(t) => ElsewhereKeepsInv(s, t, s');
    case Tick(t) => TickKeepsInv(s, t, s');
    case _ => CallKeepsInv(s, a, s');
  }

  lemma CallKeepsInv(s: System, a: Action, s': System)
    requires Inv(s) && Step(s, a, s')
    requires a.Call? || a.Acquire? || a.Count? || a.Release? || a.Fault? || a.Conclude?
    ensures Inv(s') && s'.table == s.table
  {
  }

  lemma TickKeepsInv(s: System, t: Time, s': System)
    requires Inv(s) && Step(s, Tick(t), s')
    ensures Inv(s') && (NonEmpty(s.table, DOMAIN) ==> NonEmpty(s'.table, DOMAIN))
  {
    if NonEmpty(s.table, DOMAIN) {
      var able :| Holds(s.table, DOMAIN, able) && s.table.active[able].activatesAt <= s.now;
      assert Holds(s'.table, DOMAIN, able);
    }
  }

  lemma {:induction false} ReachableInv(tr: seq<System>, j: nat)
    requires Run(tr) && j < |tr|
    ensures Inv(tr[j])
  {
    if j > 0 {
      ReachableInv(tr, j - 1);
      assert NextAt(tr, j - 1);
      StepKeepsInv(tr[j - 1], tr[j]);
    }
  }

  lemma {:induction false} StaysNonEmpty(tr: seq<System>, i: nat, j: nat)
    requires Run(tr) && i <= j < |tr| && NonEmpty(tr[i].table, DOMAIN)
    ensures NonEmpty(tr[j].table, DOMAIN)
  {
    if i < j {
      StaysNonEmpty(tr, i, j - 1);
      ReachableInv(tr, j - 1);
      assert NextAt(tr, j - 1);
      StepKeepsInv(tr[j - 1], tr[j]);
    }
  }

  // ---------------------------------------------------------------- theorems

  /** Once the domain holds a key, every later state holds a key, carries exactly one current
      marker, and has an effective current key for every order of the listing. */
  lemma SigningAvailability(tr: seq<System>, i: nat, j: nat, keys: KeyList)
    requires Run(tr) && i <= j < |tr| && NonEmpty(tr[i].table, DOMAIN)
    requires Enumerates(keys, tr[j].table, DOMAIN)
    ensures NonEmpty(tr[j].table, DOMAIN) && OneCurrent(tr[j].table, DOMAIN)
    ensures EffectiveCurrent(keys, tr[j].now).Some?
    ensures Holds(tr[j].table, DOMAIN, EffectiveCurrent(keys, tr[j].now).value.kid)
  {
    StaysNonEmpty(tr, i, j);
    ReachableInv(tr, j);
    var able :| Holds(tr[j].table, DOMAIN, able) && tr[j].table.active[able].activatesAt <= tr[j].now;
    ListedKeySelected(tr[j].table, DOMAIN, keys, tr[j].now, able);
  }

  /** Across all replicas at most one key takes the first-key activation; every other key made in
      the run that was not promoted is ineligible until its call's clock reading plus the grace
      period; and a bootstrap call that reported success left a populated domain. */
  lemma OneImmediateKey(tr: seq<System>, j: nat)
    requires Run(tr) && j < |tr|
    ensures forall a, b :: a in tr[j].origin && b in tr[j].origin && tr[j].origin[a].first && tr[j].origin[b].first ==> a == b
    ensures forall kid ::
              && kid in tr[j].origin && Holds(tr[j].table, DOMAIN, kid)
              && !tr[j].origin[kid].first && !tr[j].origin[kid].promoted
              && tr[j].table.active[kid].activatesAt <= tr[j].now
              ==> tr[j].now >= tr[j].origin[kid].calledAt + GRACE_PERIOD
    ensures forall r :: r in tr[j].calls && tr[j].calls[r] == Finished(Ensure, true) ==> NonEmpty(tr[j].table, DOMAIN)
  {
    ReachableInv(tr, j);
  }

  /** No step of this domain changes the keys of another one. */
  lemma DomainsIsolated(s: System, a: Action, s': System, other: KeyDomain)
    requires Inv(s) && Step(s, a, s') && !a.Elsewhere? && other != DOMAIN
    ensures DomainKeys(s'.table, other) == DomainKeys(s.table, other)
  {
    match a
    case Write(r, kid, pair) =>
      var Counted(kind, at, empty) := s.calls[r];
      var key := GeneratedKey(kid, pair, if empty then at else at + GRACE_PERIOD);
      OtherDomainsUntouched(s.table, key, DOMAIN, kid, [], at, other);
    case PromoteKey(kid, at) =>
      OtherDomainsUntouched(s.table, GeneratedKey(kid, 0, at), DOMAIN, kid, [], at, other);
    case DeleteKey(kid, keys) =>
      OtherDomainsUntouched(s.table, GeneratedKey(kid, 0, 0), DOMAIN, kid, keys, s.now, other);
    case _ =>
  }
}
