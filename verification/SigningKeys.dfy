/** Signing keys, the atomic operations of the key repository, the choice of the effective
    current key and the public key set that is built from the stored keys.

    The repository is a table of active keys plus the key ids that were removed.  Removal is
    soft: a removed id stays taken.  A listing may come in any order (the in-memory adapter
    ranges over a hash map), so it is any enumeration of the active keys of a domain. */
module SigningKeys {
  import opened Prelude

  const ES256 := "ES256"
  const P256 := "P-256"

  datatype KeyDomain = TokenSigning | CimdClientAuthentication | Unsupported(name: string)

  datatype PublicJwk = PublicJwk(
    kid: Option<string>,
    algorithm: Option<string>,
    usage: Option<string>,
    curve: Option<string>,  // None for a key that is not an elliptic-curve key
    point: int)

  /** The stored public key: absent on legacy rows, unparsable, or parsed. */
  datatype PublicColumn = Legacy | Malformed | Stored(jwk: PublicJwk)

  /** pair identifies the key pair, so a JWK publishes this key when its point equals pair. */
  datatype SigningKey = SigningKey(
    kid: string,
    domain: KeyDomain,
    algorithm: string,
    pair: int,
    publicJwk: PublicColumn,
    isCurrent: bool,
    activatesAt: Time)

  /** A repository listing; the source tolerates nil entries. */
  type KeyList = seq<Option<SigningKey>>

  datatype KeyTable = KeyTable(active: map<string, SigningKey>, removed: set<string>)

  datatype RepositoryError =
    | InvalidDomain | Conflict | NotFound | LastActiveKey | CurrentKey | EffectiveCurrentKey

  ghost predicate WellFormed(t: KeyTable) {
    && (forall kid :: kid in t.active ==> t.active[kid].kid == kid)
    && t.active.Keys !! t.removed
  }

  ghost function DomainKeys(t: KeyTable, d: KeyDomain): set<SigningKey> {
    set kid | kid in t.active && t.active[kid].domain == d :: t.active[kid]
  }

  ghost function Elements(keys: KeyList): set<SigningKey> {
    set k | k in keys && k.Some? :: k.value
  }

  /** keys lists exactly the active keys of domain d, each once, in some order. */
  ghost predicate Enumerates(keys: KeyList, t: KeyTable, d: KeyDomain) {
    && (forall i :: 0 <= i < |keys| ==> keys[i].Some? && keys[i].value in DomainKeys(t, d))
    && (forall k :: k in DomainKeys(t, d) ==> Some(k) in keys)
    && (forall i, j :: 0 <= i < j < |keys| ==> keys[i] != keys[j])
  }

  // ---------------------------------------------------------------- effective current key

  predicate Eligible(k: Option<SigningKey>, now: Time) {
    k.Some? && k.value.activatesAt <= now
  }

  predicate Better(a: SigningKey, b: SigningKey) {
    || (a.isCurrent && !b.isCurrent)
    || (a.isCurrent == b.isCurrent && a.activatesAt > b.activatesAt)
  }

  /** Where the selection loop ends up, or -1. */
  function BestIndex(keys: KeyList, now: Time): (best: int)
    ensures best == -1 || (0 <= best < |keys| && Eligible(keys[best], now))
  {
    if |keys| == 0 then -1
    else
      var last := |keys| - 1;
      var best := BestIndex(keys[..last], now);
      if Eligible(keys[last], now) && (best == -1 || Better(keys[last].value, keys[best].value)) then last else best
  }

  function EffectiveCurrent(keys: KeyList, now: Time): (best: Option<SigningKey>)
    ensures best.Some? ==> best in keys && Eligible(best, now)
  {
    var i := BestIndex(keys, now);
    if i == -1 then None else keys[i]
  }

  /** The loop of the source, proved against the selection. */
  method SelectEffectiveCurrent(keys: KeyList, now: Time) returns (best: Option<SigningKey>)
    ensures best == EffectiveCurrent(keys, now)
  {
    best := None;
    for i := 0 to |keys|
      invariant best == EffectiveCurrent(keys[..i], now)
    {
      var key := keys[i];
      assert keys[..i + 1][..i] == keys[..i];
      if key.None? || key.value.activatesAt > now { continue; }
      if best.None?
        || (!best.value.isCurrent && key.value.isCurrent)
        || (best.value.isCurrent == key.value.isCurrent && key.value.activatesAt > best.value.activatesAt)
      {
        best := key;
      }
    }
    assert keys[..|keys|] == keys;
  }

  predicate ActiveAt(keys: KeyList, j: int, now: Time) {
    0 <= j < |keys| && keys[j].Some? && keys[j].value.activatesAt <= now
  }

  /** Position i holds the first maximum of the active keys: a key without the current marker is
      there only if no active key has it, no active key with the same marker was activated later,
      and among equals it stands first. */
  ghost predicate FirstMaximum(keys: KeyList, now: Time, i: int) {
    && ActiveAt(keys, i, now)
    && var best := keys[i].value;
       && (forall j :: ActiveAt(keys, j, now) && keys[j].value.isCurrent ==> best.isCurrent)
       && (forall j :: ActiveAt(keys, j, now) && keys[j].value.isCurrent == best.isCurrent ==> keys[j].value.activatesAt <= best.activatesAt)
       && (forall j :: ActiveAt(keys, j, now) && keys[j].value.isCurrent == best.isCurrent && keys[j].value.activatesAt == best.activatesAt ==> i <= j)
  }

  lemma {:induction false} BestIndexIsFirstMaximum(keys: KeyList, now: Time)
    ensures BestIndex(keys, now) == -1 ==> forall i :: !ActiveAt(keys, i, now)
    ensures BestIndex(keys, now) != -1 ==> FirstMaximum(keys, now, BestIndex(keys, now))
  {
    if |keys| > 0 {
      var last := |keys| - 1;
      var front := keys[..last];
      BestIndexIsFirstMaximum(front, now);
      assert forall j :: ActiveAt(keys, j, now) ==> j == last || ActiveAt(front, j, now);
      assert forall j :: ActiveAt(front, j, now) ==> ActiveAt(keys, j, now);
    }
  }

  /** The selection is None exactly when no key is eligible, and is k exactly when k stands at
      the first maximum. */
  lemma EffectiveCurrentIsFirstMaximum(keys: KeyList, now: Time)
    ensures EffectiveCurrent(keys, now).None? <==> forall i :: !ActiveAt(keys, i, now)
    ensures EffectiveCurrent(keys, now).Some? ==> FirstMaximum(keys, now, BestIndex(keys, now))
    ensures forall i :: FirstMaximum(keys, now, i) ==> i == BestIndex(keys, now)
  {
    BestIndexIsFirstMaximum(keys, now);
  }

  function Without(keys: KeyList, i: nat): KeyList
    requires i < |keys|
  {
    keys[..i] + keys[i + 1..]
  }

  lemma MaximumSurvives(keys: KeyList, now: Time, i: nat, m: nat)
    requires i < |keys| && i != m && FirstMaximum(keys, now, m)
    ensures FirstMaximum(Without(keys, i), now, if m < i then m else m - 1)
  {
    var rest, m' := Without(keys, i), if m < i then m else m - 1;
    assert rest[m'] == keys[m];
    forall j | ActiveAt(rest, j, now)
      ensures rest[j].value.isCurrent ==> keys[m].value.isCurrent
      ensures rest[j].value.isCurrent == keys[m].value.isCurrent ==> rest[j].value.activatesAt <= keys[m].value.activatesAt
      ensures rest[j].value.isCurrent == keys[m].value.isCurrent && rest[j].value.activatesAt == keys[m].value.activatesAt ==> m' <= j
    {
      var was := if j < i then j else j + 1;
      assert rest[j] == keys[was] && ActiveAt(keys, was, now);
    }
  }

  lemma NoneActiveSurvives(keys: KeyList, now: Time, i: nat)
    requires i < |keys| && forall j :: !ActiveAt(keys, j, now)
    ensures forall j :: !ActiveAt(Without(keys, i), j, now)
  {
    forall j ensures !ActiveAt(Without(keys, i), j, now) {
      assert !ActiveAt(keys, if j < i then j else j + 1, now);
    }
  }

  /** Dropping a key that was not selected leaves the selection as it was. */
  lemma RemovingUnselectedKeepsSelection(keys: KeyList, now: Time, i: int)
    requires 0 <= i < |keys|
    requires keys[i] != EffectiveCurrent(keys, now)
    ensures EffectiveCurrent(keys[..i] + keys[i + 1..], now) == EffectiveCurrent(keys, now)
  {
    EffectiveCurrentIsFirstMaximum(keys, now);
    EffectiveCurrentIsFirstMaximum(Without(keys, i), now);
    var m := BestIndex(keys, now);
    if m == -1 {
      NoneActiveSurvives(keys, now, i);
    } else {
      MaximumSurvives(keys, now, i, m);
    }
  }

  // ---------------------------------------------------------------- repository operations

  function Demoted(active: map<string, SigningKey>, d: KeyDomain): map<string, SigningKey> {
    map kid | kid in active ::
      if active[kid].domain == d then active[kid].(isCurrent := false) else active[kid]
  }

  function Create(t: KeyTable, key: SigningKey): Result<KeyTable, RepositoryError> {
    if key.domain.Unsupported? then Err(InvalidDomain)
    else if key.kid in t.active || key.kid in t.removed then Err(Conflict)
    else Ok(t.(active := t.active[key.kid := key]))
  }

  function CreateAndSetCurrent(t: KeyTable, key: SigningKey): Result<KeyTable, RepositoryError> {
    if key.domain.Unsupported? then Err(InvalidDomain)
    else if key.kid in t.active || key.kid in t.removed then Err(Conflict)
    else Ok(t.(active := Demoted(t.active, key.domain)[key.kid := key.(isCurrent := true)]))
  }

  predicate Holds(t: KeyTable, d: KeyDomain, kid: string) {
    kid in t.active && t.active[kid].domain == d
  }

  function SetCurrentInDomain(t: KeyTable, d: KeyDomain, kid: string, activatesAt: Time): Result<KeyTable, RepositoryError> {
    if !Holds(t, d, kid) then Err(NotFound)
    else
      var demoted := Demoted(t.active, d);
      Ok(t.(active := demoted[kid := demoted[kid].(isCurrent := true, activatesAt := activatesAt)]))
  }

  /** The guarded removal.  keys is the listing of domain d under the repository's own lock. */
  function DeleteInDomain(t: KeyTable, d: KeyDomain, kid: string, keys: KeyList, now: Time): Result<KeyTable, RepositoryError> {
    if !Holds(t, d, kid) then Err(NotFound)
    else if |keys| <= 1 then Err(LastActiveKey)
    else if t.active[kid].isCurrent then Err(CurrentKey)
    else if EffectiveCurrent(keys, now).Some? && EffectiveCurrent(keys, now).value.kid == kid then Err(EffectiveCurrentKey)
    else Ok(KeyTable(t.active - {kid}, t.removed + {kid}))
  }

  /** The backfill of a legacy row.  It never overwrites a stored value. */
  function SetPublicJwk(t: KeyTable, kid: string, column: PublicColumn): Result<KeyTable, RepositoryError> {
    if kid !in t.active then Err(NotFound)
    else if !t.active[kid].publicJwk.Legacy? then Ok(t)
    else Ok(t.(active := t.active[kid := t.active[kid].(publicJwk := column)]))
  }

  /** What every committed mutation keeps: a used key id is active or removed for ever after,
      and a removed one never becomes active again. */
  ghost predicate IdsRetired(t: KeyTable, t': KeyTable) {
    && WellFormed(t')
    && t.removed <= t'.removed
    && t.active.Keys <= t'.active.Keys + t'.removed
  }

  lemma MutationsRetireIds(t: KeyTable, key: SigningKey, d: KeyDomain, kid: string, keys: KeyList, at: Time, column: PublicColumn)
    requires WellFormed(t)
    ensures Create(t, key).Ok? ==> IdsRetired(t, Create(t, key).value)
    ensures CreateAndSetCurrent(t, key).Ok? ==> IdsRetired(t, CreateAndSetCurrent(t, key).value)
    ensures SetCurrentInDomain(t, d, kid, at).Ok? ==> IdsRetired(t, SetCurrentInDomain(t, d, kid, at).value)
    ensures DeleteInDomain(t, d, kid, keys, at).Ok? ==>
              IdsRetired(t, DeleteInDomain(t, d, kid, keys, at).value) && kid in DeleteInDomain(t, d, kid, keys, at).value.removed
    ensures SetPublicJwk(t, kid, column).Ok? ==> IdsRetired(t, SetPublicJwk(t, kid, column).value)
  {
  }

  // ---------------------------------------------------------------- public key set

  /** The JWK that a client derives from the private half of a key. */
  function DerivedJwk(key: SigningKey): PublicJwk {
    PublicJwk(Some(key.kid), Some(ES256), Some("sig"), Some(P256), key.pair)
  }

  /** The published form of one key, or None where the source reports it unavailable. */
  function PublicJwkFor(key: SigningKey): (r: Option<PublicJwk>)
    ensures r.Some? ==> r.value.kid == Some(key.kid)
  {
    match key.publicJwk
    case Malformed => None
    case Legacy => Some(DerivedJwk(key))
    case Stored(jwk) =>
      if jwk.kid == Some(key.kid) && jwk.algorithm == Some(ES256) && jwk.usage == Some("sig") && jwk.curve == Some(P256)
      then Some(jwk) else None
  }

  /** What is published is the key's own public half under its own id, for ES256 signatures; a
      stored form is published exactly when it says so itself, and an unreadable one never is. */
  lemma PublishedFormIsOwn(key: SigningKey)
    ensures key.publicJwk.Legacy? ==> PublicJwkFor(key) == Some(PublicJwk(Some(key.kid), Some("ES256"), Some("sig"), Some("P-256"), key.pair))
    ensures key.publicJwk.Stored? ==>
              var jwk := key.publicJwk.jwk;
              PublicJwkFor(key) == if jwk == PublicJwk(Some(key.kid), Some("ES256"), Some("sig"), Some("P-256"), jwk.point) then Some(jwk) else None
    ensures key.publicJwk.Malformed? ==> PublicJwkFor(key).None?
  {
  }

  ghost function Es256Keys(keys: set<SigningKey>): set<SigningKey> {
    set k | k in keys && k.algorithm == ES256
  }

  ghost function Published(keys: set<SigningKey>): set<PublicJwk>
    requires forall k :: k in keys ==> PublicJwkFor(k).Some?
  {
    set k | k in keys :: PublicJwkFor(k).value
  }

  /** The set that a fresh build publishes for a set of keys; None where the build fails. */
  ghost function PublicSet(keys: set<SigningKey>): Option<set<PublicJwk>> {
    var es := Es256Keys(keys);
    if es != {} && forall k :: k in es ==> PublicJwkFor(k).Some? then Some(Published(es)) else None
  }

  /** The published set holds the public form of every ES256 key and of no other key; there is none
      when no ES256 key is there or one of them has no usable form. */
  lemma PublicSetExact(keys: set<SigningKey>)
    ensures PublicSet(keys).None? <==>
              || (forall k :: k in keys ==> k.algorithm != "ES256")
              || (exists k :: k in keys && k.algorithm == "ES256" && PublicJwkFor(k).None?)
    ensures PublicSet(keys).Some? ==>
              forall j :: j in PublicSet(keys).value <==> exists k :: k in keys && k.algorithm == "ES256" && PublicJwkFor(k) == Some(j)
  {
    var es := Es256Keys(keys);
    if k :| k in keys && k.algorithm == "ES256" {
      assert k in es;
    }
    if k :| k in es {
      assert k in keys && k.algorithm == "ES256";
    }
  }

  /** The build loop: it publishes PublicSet of the listed keys or fails, for every order. */
  method BuildPublicJwkSet(keys: KeyList) returns (r: Option<seq<PublicJwk>>)
    ensures r.Some? ==>
              && None !in keys
              && PublicSet(Elements(keys)) == Some(set j | j in r.value)
    ensures None !in keys && PublicSet(Elements(keys)).Some?
            && (forall i, j :: 0 <= i < j < |keys| ==> keys[i].value.kid != keys[j].value.kid)
            ==> r.Some?
  {
    var jwks: seq<PublicJwk> := [];
    for i := 0 to |keys|
      invariant None !in keys[..i]
      invariant forall k :: k in Elements(keys[..i]) && k.algorithm == ES256 ==> PublicJwkFor(k).Some? && PublicJwkFor(k).value in jwks
      invariant forall j :: j in jwks ==> exists k :: k in Elements(keys[..i]) && k.algorithm == ES256 && PublicJwkFor(k) == Some(j)
    {
      assert keys[..i + 1] == keys[..i] + [keys[i]];
      if keys[i].None? {
        assert None in keys;
        return None;
      }
      var key := keys[i].value;
      assert Elements(keys[..i + 1]) == Elements(keys[..i]) + {key};
      if key.algorithm != ES256 { continue; }
      var jwk := PublicJwkFor(key);
      if jwk.None? {
        assert Some(key) in keys && key in Elements(keys);
        return None;
      }
      if jwk.value in jwks {
        ghost var k :| k in Elements(keys[..i]) && k.algorithm == ES256 && PublicJwkFor(k) == Some(jwk.value);
        assert Some(k) in keys[..i];
        return None;
      }
      jwks := jwks + [jwk.value];
    }
    assert keys[..|keys|] == keys;
    ghost var es := Es256Keys(Elements(keys));
    if |jwks| == 0 {
      return None;
    }
    assert jwks[0] in jwks;
    ghost var first :| first in es && PublicJwkFor(first) == Some(jwks[0]);
    assert Published(es) == set j | j in jwks;
    return Some(jwks);
  }

  /** Backfilling the derived key leaves the published set as it was. */
  lemma BackfillKeepsPublicSet(t: KeyTable, kid: string, d: KeyDomain)
    requires WellFormed(t) && kid in t.active
    ensures var t' := SetPublicJwk(t, kid, Stored(DerivedJwk(t.active[kid])));
            t'.Ok? && PublicSet(DomainKeys(t'.value, d)) == PublicSet(DomainKeys(t, d))
  {
    var t' := SetPublicJwk(t, kid, Stored(DerivedJwk(t.active[kid]))).value;
    SamePublicSet(t, t', d);
  }

  lemma SamePublicSet(t: KeyTable, t': KeyTable, d: KeyDomain)
    requires WellFormed(t) && WellFormed(t') && t.active.Keys == t'.active.Keys
    requires forall kid :: kid in t.active ==>
               && t.active[kid].domain == t'.active[kid].domain
               && t.active[kid].algorithm == t'.active[kid].algorithm
               && PublicJwkFor(t.active[kid]) == PublicJwkFor(t'.active[kid])
    ensures PublicSet(DomainKeys(t', d)) == PublicSet(DomainKeys(t, d))
  {
    var a, b := Es256Keys(DomainKeys(t, d)), Es256Keys(DomainKeys(t', d));
    forall k | k in a ensures t'.active[k.kid] in b && PublicJwkFor(t'.active[k.kid]) == PublicJwkFor(k) {}
    forall k | k in b ensures t.active[k.kid] in a && PublicJwkFor(t.active[k.kid]) == PublicJwkFor(k) {}
    if (forall k :: k in a ==> PublicJwkFor(k).Some?) && (forall k :: k in b ==> PublicJwkFor(k).Some?) {
      assert Published(a) == Published(b);
    }
  }
}
