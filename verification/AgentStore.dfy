/** The in-memory agent repository with its indexes, and reconciliation against it while nothing
    else changes the agents. */
module AgentStore {
  import opened Prelude
  import opened Agents

  // ---------------------------------------------------------------- indexes over unique names

  function ExternalNames(a: Agent): set<string> {
    if a.external.Some? then {a.external.value} else {}
  }

  function CanonicalNames(a: Agent): set<string> {
    if a.definition.canonical.Some? then {a.definition.canonical.value} else {}
  }

  function Elements(uris: seq<string>): set<string> {
    set u | u in uris
  }

  function UriNames(a: Agent): set<string> {
    Elements(a.definition.uris)
  }

  /** The index maps exactly the names of the stored agents, each to its only holder. */
  ghost predicate Indexes(index: map<string, nat>, agents: Agents, names: Agent -> set<string>) {
    && (forall n :: n in index ==> index[n] in agents && n in names(agents[index[n]]))
    && (forall x, n :: x in agents && n in names(agents[x]) ==> n in index && index[n] == x)
  }

  lemma IndexFinds(index: map<string, nat>, agents: Agents, names: Agent -> set<string>, x: nat, n: string)
    requires Indexes(index, agents, names) && x in agents && n in names(agents[x])
    ensures n in index && index[n] == x
  {
  }

  lemma NoHolder(index: map<string, nat>, agents: Agents, selector: string)
    requires Indexes(index, agents, ExternalNames) && selector !in index
    ensures forall x :: x in agents ==> !Holds(agents[x], selector)
  {
    forall x | x in agents ensures !Holds(agents[x], selector) {
      assert selector in ExternalNames(agents[x]) ==> selector in index;
    }
  }

  function Assigned(index: map<string, nat>, names: set<string>, id: nat): map<string, nat> {
    index + map n | n in names :: id
  }

  /** Some name is held by another agent, as the index tells it. */
  predicate Held(index: map<string, nat>, names: set<string>, id: nat) {
    exists n :: n in names && n in index && index[n] != id
  }

  /** What the index tells is what the agents hold. */
  lemma HeldMeansShared(index: map<string, nat>, agents: Agents, names: Agent -> set<string>, a: Agent)
    requires Indexes(index, agents, names)
    ensures Held(index, names(a), a.id) <==> exists x :: x in agents && x != a.id && names(agents[x]) * names(a) != {}
  {
    if x :| x in agents && x != a.id && names(agents[x]) * names(a) != {} {
      var n :| n in names(agents[x]) * names(a);
      assert n in names(a) && n in index && index[n] != a.id;
    }
    if Held(index, names(a), a.id) {
      var n :| n in names(a) && n in index && index[n] != a.id;
      assert n in names(agents[index[n]]) * names(a);
    }
  }

  function Stored(index: map<string, nat>, agents: Agents, names: Agent -> set<string>, a: Agent): map<string, nat> {
    Assigned(index - (if a.id in agents then names(agents[a.id]) else {}), names(a), a.id)
  }

  /** Storing an agent: its old names leave the index and its new names enter it. */
  lemma IndexStored(index: map<string, nat>, agents: Agents, names: Agent -> set<string>, a: Agent)
    requires Indexes(index, agents, names) && !Held(index, names(a), a.id)
    ensures Indexes(Stored(index, agents, names, a), agents[a.id := a], names)
  {
    var before := if a.id in agents then names(agents[a.id]) else {};
    var after, stored := Stored(index, agents, names, a), agents[a.id := a];
    forall n | n in after ensures after[n] in stored && n in names(stored[after[n]]) {
      if n !in names(a) {
        assert n in index && n !in before;
      }
    }
    forall x, n | x in stored && n in names(stored[x]) ensures n in after && after[n] == x {
      if x != a.id {
        assert n in index && index[n] == x;
      }
    }
  }

  // ---------------------------------------------------------------- the client index

  /** Client IDs may be shared: each maps to the agents that use it, without repetition. */
  ghost predicate IndexesClients(index: map<string, seq<nat>>, agents: Agents) {
    && (forall c :: c in index ==> index[c] != [] && Distinct(index[c]))
    && (forall c, x :: c in index && x in index[c] ==> x in agents && agents[x].definition.client == Some(c))
    && (forall x :: x in agents && agents[x].definition.client.Some? ==>
          agents[x].definition.client.value in index && x in index[agents[x].definition.client.value])
  }

  ghost predicate Distinct(ids: seq<nat>) {
    forall i, j :: 0 <= i < j < |ids| ==> ids[i] != ids[j]
  }

  function Appended(index: map<string, seq<nat>>, client: Option<string>, id: nat): map<string, seq<nat>> {
    if client.None? then index
    else index[client.value := (if client.value in index then index[client.value] else []) + [id]]
  }

  /** The list without the first occurrence of the agent; an empty list leaves the index. */
  function Dropped(index: map<string, seq<nat>>, client: Option<string>, id: nat): map<string, seq<nat>> {
    if client.None? || client.value !in index then index
    else
      var ids := WithoutFirst(index[client.value], id);
      if ids == [] then index - {client.value} else index[client.value := ids]
  }

  function WithoutFirst(ids: seq<nat>, id: nat): seq<nat> {
    if ids == [] then [] else if ids[0] == id then ids[1..] else [ids[0]] + WithoutFirst(ids[1..], id)
  }

  lemma {:induction false} WithoutFirstExact(ids: seq<nat>, id: nat)
    requires Distinct(ids)
    ensures Distinct(WithoutFirst(ids, id))
    ensures forall x :: x in WithoutFirst(ids, id) <==> x in ids && x != id
  {
    if ids != [] {
      assert ids == [ids[0]] + ids[1..];
      WithoutFirstExact(ids[1..], id);
      var rest := WithoutFirst(ids[1..], id);
      forall j | 0 <= j < |rest| ensures rest[j] != ids[0] {
        assert rest[j] in rest && rest[j] in ids[1..];
      }
    }
  }

  lemma ClientDropped(index: map<string, seq<nat>>, agents: Agents, a: Agent)
    requires IndexesClients(index, agents) && Keyed(agents) && a.id in agents
    ensures IndexesClients(Dropped(index, agents[a.id].definition.client, a.id), agents - {a.id})
  {
    var client := agents[a.id].definition.client;
    if client.Some? {
      WithoutFirstExact(index[client.value], a.id);
      var ids := WithoutFirst(index[client.value], a.id);
      forall x | x in agents - {a.id} && agents[x].definition.client == client ensures x in ids {
      }
    }
  }

  lemma ClientAppended(index: map<string, seq<nat>>, agents: Agents, a: Agent)
    requires IndexesClients(index, agents) && a.id !in agents
    ensures IndexesClients(Appended(index, a.definition.client, a.id), agents[a.id := a])
  {
    var client := a.definition.client;
    if client.Some? {
      var ids := if client.value in index then index[client.value] else [];
      assert forall x :: x in ids ==> x in agents;
      assert Distinct(ids + [a.id]);
    }
  }

  /** An agent that keeps its client keeps its place in the index. */
  lemma ClientKept(index: map<string, seq<nat>>, agents: Agents, a: Agent)
    requires IndexesClients(index, agents) && a.id in agents && agents[a.id].definition.client == a.definition.client
    ensures IndexesClients(index, agents[a.id := a])
  {
  }

  function ClientsStored(index: map<string, seq<nat>>, agents: Agents, a: Agent): map<string, seq<nat>> {
    if a.id !in agents then Appended(index, a.definition.client, a.id)
    else if agents[a.id].definition.client == a.definition.client then index
    else Appended(Dropped(index, agents[a.id].definition.client, a.id), a.definition.client, a.id)
  }

  lemma ClientStored(index: map<string, seq<nat>>, agents: Agents, a: Agent)
    requires IndexesClients(index, agents) && Keyed(agents)
    ensures IndexesClients(ClientsStored(index, agents, a), agents[a.id := a])
  {
    if a.id !in agents {
      ClientAppended(index, agents, a);
    } else if agents[a.id].definition.client == a.definition.client {
      ClientKept(index, agents, a);
    } else {
      ClientDropped(index, agents, a);
      ClientAppended(Dropped(index, agents[a.id].definition.client, a.id), agents - {a.id}, a);
      assert (agents - {a.id})[a.id := a] == agents[a.id := a];
    }
  }

  // ---------------------------------------------------------------- clashes

  lemma ClashesMeansHeld(agents: Agents, external: map<string, nat>, canonical: map<string, nat>, uri: map<string, nat>, a: Agent)
    requires Indexes(external, agents, ExternalNames) && Indexes(canonical, agents, CanonicalNames) && Indexes(uri, agents, UriNames)
    ensures Clashes(agents, a) <==>
              Held(external, ExternalNames(a), a.id) || Held(canonical, CanonicalNames(a), a.id) || Held(uri, UriNames(a), a.id)
  {
    HeldMeansShared(external, agents, ExternalNames, a);
    HeldMeansShared(canonical, agents, CanonicalNames, a);
    HeldMeansShared(uri, agents, UriNames, a);
    forall x | x in agents
      ensures Overlap(agents[x], a) <==>
                || ExternalNames(agents[x]) * ExternalNames(a) != {}
                || CanonicalNames(agents[x]) * CanonicalNames(a) != {}
                || UriNames(agents[x]) * UriNames(a) != {}
    {
      OverlapMeansShared(agents[x], a);
    }
  }

  lemma OverlapMeansShared(b: Agent, a: Agent)
    ensures Overlap(b, a) <==>
              || ExternalNames(b) * ExternalNames(a) != {}
              || CanonicalNames(b) * CanonicalNames(a) != {}
              || UriNames(b) * UriNames(a) != {}
  {
    if a.external.Some? && a.external == b.external {
      assert a.external.value in ExternalNames(b) * ExternalNames(a);
    }
    if a.definition.canonical.Some? && a.definition.canonical == b.definition.canonical {
      assert a.definition.canonical.value in CanonicalNames(b) * CanonicalNames(a);
    }
    if u :| u in b.definition.uris && u in a.definition.uris {
      assert u in UriNames(b) * UriNames(a);
    }
    if UriNames(b) * UriNames(a) != {} {
      var u :| u in UriNames(b) * UriNames(a);
    }
  }

  /** Every index is the exact inverse of the agents. */
  ghost predicate Exact(agents: Agents, external: map<string, nat>, canonical: map<string, nat>, uri: map<string, nat>, client: map<string, seq<nat>>) {
    && Keyed(agents)
    && Indexes(external, agents, ExternalNames)
    && Indexes(canonical, agents, CanonicalNames)
    && Indexes(uri, agents, UriNames)
    && IndexesClients(client, agents)
  }

  lemma StoredExact(agents: Agents, external: map<string, nat>, canonical: map<string, nat>, uri: map<string, nat>, client: map<string, seq<nat>>, a: Agent)
    requires Exact(agents, external, canonical, uri, client) && !Clashes(agents, a)
    ensures Exact(agents[a.id := a], Stored(external, agents, ExternalNames, a), Stored(canonical, agents, CanonicalNames, a),
                  Stored(uri, agents, UriNames, a), ClientsStored(client, agents, a))
  {
    ClashesMeansHeld(agents, external, canonical, uri, a);
    IndexStored(external, agents, ExternalNames, a);
    IndexStored(canonical, agents, CanonicalNames, a);
    IndexStored(uri, agents, UriNames, a);
    ClientStored(client, agents, a);
  }

  // ---------------------------------------------------------------- the repository

  class AgentRepository {
    var agents: Agents
    var byExternalId: map<string, nat>
    var byCanonicalId: map<string, nat>
    var byClientId: map<string, seq<nat>>
    var byClientUri: map<string, nat>

    ghost predicate Valid()
      reads this
    {
      Exact(agents, byExternalId, byCanonicalId, byClientUri, byClientId)
    }

    constructor ()
      ensures Valid() && agents == map[]
    {
      agents, byExternalId, byCanonicalId, byClientId, byClientUri := map[], map[], map[], map[], map[];
    }

    method GetByExternalID(selector: string) returns (found: Option<Agent>)
      requires Valid()
      ensures found.Some? ==> found.value.id in agents && agents[found.value.id] == found.value && Holds(found.value, selector)
      ensures found.None? ==> forall x :: x in agents ==> !Holds(agents[x], selector)
    {
      if selector in byExternalId {
        return Some(agents[byExternalId[selector]]);
      }
      NoHolder(byExternalId, agents, selector);
      found := None;
    }

    method ExistsOtherWithClientID(client: string, except: Option<nat>) returns (found: bool)
      requires Valid()
      ensures found <==> exists x :: x in agents && Some(x) != except && agents[x].definition.client == Some(client)
    {
      if client !in byClientId {
        return false;
      }
      var ids := byClientId[client];
      for i := 0 to |ids|
        invariant forall k :: 0 <= k < i ==> Some(ids[k]) == except
      {
        if except.None? || ids[i] != except.value {
          var other := ids[i];
          assert other in byClientId[client];
          assert other in agents && agents[other].definition.client == Some(client);
          return true;
        }
      }
      found := false;
    }

    method NamesFree(a: Agent) returns (ok: bool)
      requires Valid()
      ensures ok <==> !Clashes(agents, a)
    {
      ClashesMeansHeld(agents, byExternalId, byCanonicalId, byClientUri, a);
      if a.external.Some? && a.external.value in byExternalId && byExternalId[a.external.value] != a.id {
        return false;
      }
      var canonical := a.definition.canonical;
      if canonical.Some? && canonical.value in byCanonicalId && byCanonicalId[canonical.value] != a.id {
        return false;
      }
      var uris := a.definition.uris;
      for i := 0 to |uris|
        invariant forall k :: 0 <= k < i ==> !(uris[k] in byClientUri && byClientUri[uris[k]] != a.id)
      {
        if uris[i] in byClientUri && byClientUri[uris[i]] != a.id {
          assert uris[i] in UriNames(a);
          return false;
        }
      }
      ok := true;
    }

    /** The old names of the agent leave the indexes, its new names enter them, and the agent is
        stored. */
    method Store(a: Agent)
      requires Valid() && !Clashes(agents, a)
      modifies this
      ensures Valid() && agents == old(agents)[a.id := a]
    {
      var external := UpdateExternal(byExternalId, agents, a);
      var canonical := UpdateCanonical(byCanonicalId, agents, a);
      var uris := UpdateUris(byClientUri, agents, a);
      var clients := UpdateClients(byClientId, agents, a);
      StoredExact(agents, byExternalId, byCanonicalId, byClientUri, byClientId, a);
      byExternalId, byCanonicalId, byClientUri, byClientId := external, canonical, uris, clients;
      agents := agents[a.id := a];
    }

    method Create(a: Agent) returns (ok: bool)
      requires Valid()
      modifies this
      ensures Valid()
      ensures ok <==> a.id !in old(agents) && !Clashes(old(agents), a)
      ensures agents == if ok then old(agents)[a.id := a] else old(agents)
    {
      if a.id in agents {
        return false;
      }
      ok := NamesFree(a);
      if ok {
        Store(a);
      }
    }

    method Update(a: Agent) returns (result: Result<(), Outcome>)
      requires Valid()
      modifies this
      ensures Valid()
      ensures result.Ok? <==> a.id in old(agents) && !Clashes(old(agents), a)
      ensures result.Err? ==> result.error == if a.id in old(agents) then Conflict else Unavailable
      ensures agents == if result.Ok? then old(agents)[a.id := a] else old(agents)
    {
      if a.id !in agents {
        return Err(Unavailable);
      }
      var ok := NamesFree(a);
      if !ok {
        return Err(Conflict);
      }
      Store(a);
      result := Ok(());
    }
  }

  lemma ElementsExtended(uris: seq<string>, i: nat)
    requires i < |uris|
    ensures Elements(uris[..i + 1]) == Elements(uris[..i]) + {uris[i]}
  {
    assert uris[..i + 1] == uris[..i] + [uris[i]];
  }

  lemma AssignedOne(index: map<string, nat>, names: set<string>, n: string, id: nat)
    ensures Assigned(index, names, id)[n := id] == Assigned(index, names + {n}, id)
  {
  }

  method Assign(index: map<string, nat>, uris: seq<string>, id: nat) returns (result: map<string, nat>)
    ensures result == Assigned(index, Elements(uris), id)
  {
    result := index;
    for i := 0 to |uris|
      invariant result == Assigned(index, Elements(uris[..i]), id)
    {
      ElementsExtended(uris, i);
      AssignedOne(index, Elements(uris[..i]), uris[i], id);
      result := result[uris[i] := id];
    }
    assert uris[..|uris|] == uris;
  }

  method Unassign(index: map<string, nat>, uris: seq<string>) returns (rest: map<string, nat>)
    ensures rest == index - Elements(uris)
  {
    rest := index;
    for i := 0 to |uris|
      invariant rest == index - Elements(uris[..i])
    {
      ElementsExtended(uris, i);
      rest := rest - {uris[i]};
    }
    assert uris[..|uris|] == uris;
  }

  method RemoveFirst(ids: seq<nat>, id: nat) returns (left: seq<nat>)
    ensures left == WithoutFirst(ids, id)
  {
    for i := 0 to |ids|
      invariant WithoutFirst(ids, id) == ids[..i] + WithoutFirst(ids[i..], id)
    {
      assert ids[i..][1..] == ids[i + 1..];
      if ids[i] == id {
        return ids[..i] + ids[i + 1..];
      }
      assert ids[..i + 1] == ids[..i] + [ids[i]];
    }
    assert ids[..|ids|] == ids && ids[|ids|..] == [];
    left := ids;
  }

  method RemoveFromClientIdIndex(index: map<string, seq<nat>>, client: Option<string>, id: nat) returns (rest: map<string, seq<nat>>)
    ensures rest == Dropped(index, client, id)
  {
    if client.None? || client.value !in index {
      return index;
    }
    var left := RemoveFirst(index[client.value], id);
    rest := if left == [] then index - {client.value} else index[client.value := left];
  }

  method UpdateExternal(index: map<string, nat>, agents: Agents, a: Agent) returns (result: map<string, nat>)
    ensures result == Stored(index, agents, ExternalNames, a)
  {
    result := index;
    if a.id in agents && agents[a.id].external.Some? {
      result := result - {agents[a.id].external.value};
    }
    if a.external.Some? {
      result := result[a.external.value := a.id];
    }
  }

  method UpdateCanonical(index: map<string, nat>, agents: Agents, a: Agent) returns (result: map<string, nat>)
    ensures result == Stored(index, agents, CanonicalNames, a)
  {
    result := index;
    if a.id in agents && agents[a.id].definition.canonical.Some? {
      result := result - {agents[a.id].definition.canonical.value};
    }
    if a.definition.canonical.Some? {
      result := result[a.definition.canonical.value := a.id];
    }
  }

  method UpdateUris(index: map<string, nat>, agents: Agents, a: Agent) returns (result: map<string, nat>)
    ensures result == Stored(index, agents, UriNames, a)
  {
    result := index;
    if a.id in agents {
      result := Unassign(result, agents[a.id].definition.uris);
    }
    result := Assign(result, a.definition.uris, a.id);
  }

  method UpdateClients(index: map<string, seq<nat>>, agents: Agents, a: Agent) returns (result: map<string, seq<nat>>)
    ensures result == ClientsStored(index, agents, a)
  {
    result := index;
    if a.id in agents {
      if agents[a.id].definition.client == a.definition.client {
        return;
      }
      result := RemoveFromClientIdIndex(result, agents[a.id].definition.client, a.id);
    }
    result := Appended(result, a.definition.client, a.id);
  }

  // ---------------------------------------------------------------- reconciling

  /** The client check of create and update. */
  method ClientIsTaken(repo: AgentRepository, s: Service, client: Option<string>, except: Option<nat>) returns (taken: bool)
    requires repo.Valid()
    ensures taken <==> ClientTaken(s, repo.agents, client, except)
  {
    taken := false;
    if !s.multiAgent && client.Some? {
      taken := repo.ExistsOtherWithClientID(client.value, except);
    }
  }

  method ReconcileExisting(repo: AgentRepository, s: Service, existing: Agent, selector: string, desired: Definition, input: Input, now: Time) returns (outcome: Outcome)
    requires repo.Valid() && existing.id in repo.agents && repo.agents[existing.id] == existing
    requires InputAccepted(s, selector, input) && Holder(repo.agents, selector) == Some(existing.id)
    modifies repo
    ensures repo.Valid()
    ensures forall newId :: (outcome, repo.agents) == Reconcile(s, old(repo.agents), selector, desired, input, newId, now)
  {
    var candidate := Merge(existing, desired, selector, input.canonicalPresent);
    if !s.valid(candidate.definition) {
      return Invalid;
    }
    var taken := ClientIsTaken(repo, s, candidate.definition.client, Some(existing.id));
    if taken {
      return Conflict;
    }
    if SameDefinition(existing, candidate) {
      return Unchanged(existing);
    }
    candidate := candidate.(updatedAt := now);
    var written := repo.Update(candidate);
    if written.Err? {
      return written.error;
    }
    outcome := Updated(candidate);
  }

  /** One reconcile while nothing else changes the agents. */
  method ReconcileByExternalID(repo: AgentRepository, s: Service, selector: string, desired: Definition, input: Input, newId: nat, now: Time) returns (outcome: Outcome)
    requires repo.Valid() && newId !in repo.agents
    modifies repo
    ensures repo.Valid()
    ensures (outcome, repo.agents) == Reconcile(s, old(repo.agents), selector, desired, input, newId, now)
  {
    if !InputAccepted(s, selector, input) {
      return Invalid;
    }
    var existing := repo.GetByExternalID(selector);
    if existing.Some? {
      HolderIndexed(repo.agents, repo.byExternalId, selector, existing.value.id);
      outcome := ReconcileExisting(repo, s, existing.value, selector, desired, input, now);
      return;
    }
    if !s.valid(desired) {
      return Invalid;
    }
    var candidate := Agent(newId, Some(selector), desired, now, now);
    var created := false;
    var taken := ClientIsTaken(repo, s, desired.client, None);
    if !taken {
      created := repo.Create(candidate);
    }
    if created {
      return Created(candidate);
    }
    // The second look-up after a conflict finds a holder only when another call created one.
    outcome := Conflict;
  }

  lemma HolderIndexed(agents: Agents, index: map<string, nat>, selector: string, x: nat)
    requires Indexes(index, agents, ExternalNames) && x in agents && Holds(agents[x], selector)
    ensures Holder(agents, selector) == Some(x)
  {
    forall y | y in agents && Holds(agents[y], selector) ensures y == x {
      IndexFinds(index, agents, ExternalNames, x, selector);
      IndexFinds(index, agents, ExternalNames, y, selector);
    }
    HolderIsUnique(agents, selector, x);
  }

  /** A repository whose indexes are exact never holds an external ID twice. */
  lemma IndexedExternalIdsAreUnique(agents: Agents, index: map<string, nat>)
    requires Indexes(index, agents, ExternalNames)
    ensures ExternalUnique(agents)
  {
    forall x, y | x in agents && y in agents && agents[x].external.Some? && agents[x].external == agents[y].external ensures x == y {
      IndexFinds(index, agents, ExternalNames, x, agents[x].external.value);
      IndexFinds(index, agents, ExternalNames, y, agents[x].external.value);
    }
  }
}
