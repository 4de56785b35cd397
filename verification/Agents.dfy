/** Declarative agent definitions: merging, comparing and reconciling one of them by external ID. */
module Agents {
  import opened Prelude

  datatype Requirement = Requirement(service: string, kind: string, requireAllScopes: bool, scopes: seq<string>)

  datatype Details = Details(
    displayName: string,
    description: string,
    governanceUrl: Option<string>,
    userDocumentationUrl: Option<string>,
    agentInterfaceUrl: Option<string>,
    requirements: seq<Requirement>,
    permissionSets: seq<(string, string)>,
    redirectUris: seq<string>,
    allowedScopes: seq<string>)

  datatype Definition = Definition(canonical: Option<string>, client: Option<string>, uris: seq<string>, details: Details)

  datatype Agent = Agent(id: nat, external: Option<string>, definition: Definition, createdAt: Time, updatedAt: Time)

  type Agents = map<nat, Agent>

  // ---------------------------------------------------------------- comparing client URIs

  /** Lexicographic order, as the library's string sort uses it. */
  predicate Leq(a: string, b: string) {
    |a| == 0 || (|b| > 0 && (a[0] < b[0] || (a[0] == b[0] && Leq(a[1..], b[1..]))))
  }

  lemma {:induction false} LeqTotal(a: string, b: string)
    ensures Leq(a, b) || Leq(b, a)
    ensures Leq(a, b) && Leq(b, a) ==> a == b
  {
    if |a| > 0 && |b| > 0 {
      LeqTotal(a[1..], b[1..]);
      assert a == [a[0]] + a[1..] && b == [b[0]] + b[1..];
    }
  }

  lemma {:induction false} LeqTransitive(a: string, b: string, c: string)
    requires Leq(a, b) && Leq(b, c)
    ensures Leq(a, c)
  {
    if |a| > 0 && a[0] == b[0] == c[0] {
      LeqTransitive(a[1..], b[1..], c[1..]);
    }
  }

  predicate Sorted(s: seq<string>) {
    forall i, j :: 0 <= i < j < |s| ==> Leq(s[i], s[j])
  }

  function Inserted(x: string, s: seq<string>): seq<string> {
    if |s| == 0 || Leq(x, s[0]) then [x] + s else [s[0]] + Inserted(x, s[1..])
  }

  function SortedUris(s: seq<string>): seq<string> {
    if |s| == 0 then [] else Inserted(s[0], SortedUris(s[1..]))
  }

  lemma {:induction false} InsertedMultiset(x: string, s: seq<string>)
    ensures multiset(Inserted(x, s)) == multiset(s) + multiset{x}
  {
    if |s| > 0 && !Leq(x, s[0]) {
      InsertedMultiset(x, s[1..]);
      assert s == [s[0]] + s[1..];
    }
  }

  lemma {:induction false} InsertedSorted(x: string, s: seq<string>)
    requires Sorted(s)
    ensures Sorted(Inserted(x, s))
  {
    if |s| == 0 {
    } else if Leq(x, s[0]) {
      forall j | 0 <= j < |s| ensures Leq(x, s[j]) {
        if j > 0 {
          LeqTransitive(x, s[0], s[j]);
        }
      }
    } else {
      InsertedSorted(x, s[1..]);
      LeqTotal(x, s[0]);
      InsertedMultiset(x, s[1..]);
      var rest := Inserted(x, s[1..]);
      forall j | 0 <= j < |rest| ensures Leq(s[0], rest[j]) {
        assert rest[j] in multiset(rest);
        if rest[j] != x {
          assert rest[j] in s[1..];
        }
      }
    }
  }

  lemma {:induction false} SortedUrisCorrect(s: seq<string>)
    ensures Sorted(SortedUris(s)) && multiset(SortedUris(s)) == multiset(s)
  {
    if |s| > 0 {
      SortedUrisCorrect(s[1..]);
      InsertedSorted(s[0], SortedUris(s[1..]));
      InsertedMultiset(s[0], SortedUris(s[1..]));
      assert s == [s[0]] + s[1..];
    }
  }

  lemma LeastFirst(a: seq<string>, b: seq<string>)
    requires Sorted(a) && Sorted(b) && multiset(a) == multiset(b) && |a| > 0 && |b| > 0
    ensures a[0] == b[0]
  {
    assert a[0] in multiset(b) && b[0] in multiset(a);
    var i :| 0 <= i < |b| && b[i] == a[0];
    var j :| 0 <= j < |a| && a[j] == b[0];
    LeqTotal(a[0], b[0]);
  }

  lemma {:induction false} SortedUnique(a: seq<string>, b: seq<string>)
    requires Sorted(a) && Sorted(b) && multiset(a) == multiset(b)
    ensures a == b
  {
    assert |a| == |multiset(a)| == |multiset(b)| == |b|;
    if |a| > 0 {
      LeastFirst(a, b);
      assert a == [a[0]] + a[1..] && b == [b[0]] + b[1..];
      assert multiset(a[1..]) == multiset(a) - multiset{a[0]};
      assert multiset(b[1..]) == multiset(b) - multiset{b[0]};
      SortedUnique(a[1..], b[1..]);
    }
  }

  /** Comparing sorted copies is comparing the URIs as a multiset. */
  lemma SortedComparisonIsMultiset(a: seq<string>, b: seq<string>)
    ensures SortedUris(a) == SortedUris(b) <==> multiset(a) == multiset(b)
  {
    SortedUrisCorrect(a);
    SortedUrisCorrect(b);
    if multiset(a) == multiset(b) {
      SortedUnique(SortedUris(a), SortedUris(b));
    }
  }

  predicate SameDefinition(a: Agent, b: Agent) {
    && a.external == b.external
    && a.definition.(uris := []) == b.definition.(uris := [])
    && SortedUris(a.definition.uris) == SortedUris(b.definition.uris)
  }

  // ---------------------------------------------------------------- merging

  datatype Input = Input(canonicalPresent: bool, externalNull: bool, externalPresent: bool, bodyExternal: Option<string>)

  /** An omitted canonical ID and an omitted client ID keep what the agent already has. */
  function Merge(existing: Agent, desired: Definition, selector: string, canonicalPresent: bool): Agent {
    existing.(external := Some(selector),
              definition := desired.(canonical := if desired.canonical.None? && !canonicalPresent then existing.definition.canonical else desired.canonical,
                                     client := if desired.client.None? then existing.definition.client else desired.client))
  }

  // ---------------------------------------------------------------- the repository

  /** Field validation, service coverage and provider checks of a definition. */
  datatype Service = Service(multiAgent: bool, externalValid: string -> bool, valid: Definition -> bool)

  predicate Holds(a: Agent, selector: string) {
    a.external == Some(selector)
  }

  predicate Overlap(a: Agent, b: Agent) {
    || (a.external.Some? && a.external == b.external)
    || (a.definition.canonical.Some? && a.definition.canonical == b.definition.canonical)
    || (exists u :: u in a.definition.uris && u in b.definition.uris)
  }

  /** Another agent holds one of the names that must be unique. */
  predicate Clashes(agents: Agents, a: Agent) {
    exists x :: x in agents && x != a.id && Overlap(agents[x], a)
  }

  predicate ClientTaken(s: Service, agents: Agents, client: Option<string>, except: Option<nat>) {
    !s.multiAgent && client.Some? && exists x :: x in agents && Some(x) != except && agents[x].definition.client == client
  }

  ghost predicate ExternalUnique(agents: Agents) {
    forall x, y :: x in agents && y in agents && agents[x].external.Some? && agents[x].external == agents[y].external ==> x == y
  }

  ghost function Holder(agents: Agents, selector: string): Option<nat> {
    if exists x :: x in agents && Holds(agents[x], selector)
    then var x :| x in agents && Holds(agents[x], selector); Some(x)
    else None
  }

  datatype Outcome = Created(agent: Agent) | Updated(agent: Agent) | Unchanged(agent: Agent) | Conflict | Invalid | Unavailable

  predicate InputAccepted(s: Service, selector: string, input: Input) {
    s.externalValid(selector) && !input.externalNull && (input.externalPresent ==> input.bodyExternal == Some(selector))
  }

  /** What one undisturbed reconcile answers and leaves behind. */
  ghost function Reconcile(s: Service, agents: Agents, selector: string, desired: Definition, input: Input, newId: nat, now: Time): (Outcome, Agents) {
    if !InputAccepted(s, selector, input) then (Invalid, agents)
    else
      var holder := Holder(agents, selector);
      if holder.Some? then
        var existing := agents[holder.value];
        var candidate := Merge(existing, desired, selector, input.canonicalPresent);
        if !s.valid(candidate.definition) then (Invalid, agents)
        else if ClientTaken(s, agents, candidate.definition.client, holder) then (Conflict, agents)
        else if SameDefinition(existing, candidate) then (Unchanged(existing), agents)
        else
          var written := candidate.(updatedAt := now);
          if Clashes(agents, written.(id := holder.value)) then (Conflict, agents) else (Updated(written), agents[holder.value := written])
      else
        var candidate := Agent(newId, Some(selector), desired, now, now);
        if !s.valid(desired) then (Invalid, agents)
        else if ClientTaken(s, agents, desired.client, None) || Clashes(agents, candidate) then (Conflict, agents)
        else (Created(candidate), agents[newId := candidate])
  }

  ghost predicate Keyed(agents: Agents) {
    forall x :: x in agents ==> agents[x].id == x
  }

  /** Repeating the last applied definition answers Unchanged and writes nothing, even when the
      store hands the client URIs back in another order. */
  lemma RepeatIsUnchanged(s: Service, agents: Agents, selector: string, desired: Definition, input: Input,
                          newId: nat, now: Time, reordered: seq<string>, newId': nat, now': Time)
    requires Keyed(agents) && ExternalUnique(agents) && newId !in agents
    requires var o := Reconcile(s, agents, selector, desired, input, newId, now).0; o.Created? || o.Updated? || o.Unchanged?
    requires multiset(reordered) == multiset(Reconcile(s, agents, selector, desired, input, newId, now).0.agent.definition.uris)
    ensures var (o, after) := Reconcile(s, agents, selector, desired, input, newId, now);
            var stored := o.agent.(definition := o.agent.definition.(uris := reordered));
            var kept := after[o.agent.id := stored];
            Reconcile(s, kept, selector, desired, input, newId', now') == (Unchanged(stored), kept)
  {
    var (o, after) := Reconcile(s, agents, selector, desired, input, newId, now);
    var stored := o.agent.(definition := o.agent.definition.(uris := reordered));
    var kept := after[o.agent.id := stored];
    assert Holder(kept, selector) == Some(o.agent.id) by {
      HolderIsUnique(kept, selector, o.agent.id);
    }
    SortedComparisonIsMultiset(reordered, o.agent.definition.uris);
  }

  /** The agent carries the desired definition: everything that was given is as given, and only an
      omitted canonical ID or client ID may be something else. */
  ghost predicate Carries(a: Agent, selector: string, desired: Definition, canonicalPresent: bool) {
    && a.external == Some(selector)
    && a.definition.details == desired.details
    && multiset(a.definition.uris) == multiset(desired.uris)
    && (desired.canonical.Some? || canonicalPresent ==> a.definition.canonical == desired.canonical)
    && (desired.client.Some? ==> a.definition.client == desired.client)
  }

  /** What an existing agent had and the request omitted is kept. */
  ghost predicate KeepsOmitted(existing: Agent, a: Agent, desired: Definition, canonicalPresent: bool) {
    && a.id == existing.id && a.createdAt == existing.createdAt
    && (desired.canonical.None? && !canonicalPresent ==> a.definition.canonical == existing.definition.canonical)
    && (desired.client.None? ==> a.definition.client == existing.definition.client)
  }

  lemma MergeCarries(existing: Agent, desired: Definition, selector: string, canonicalPresent: bool)
    ensures Carries(Merge(existing, desired, selector, canonicalPresent), selector, desired, canonicalPresent)
    ensures KeepsOmitted(existing, Merge(existing, desired, selector, canonicalPresent), desired, canonicalPresent)
  {
  }

  lemma SameDefinitionCarries(existing: Agent, candidate: Agent, selector: string, desired: Definition, canonicalPresent: bool)
    requires SameDefinition(existing, candidate) && Carries(candidate, selector, desired, canonicalPresent)
    ensures Carries(existing, selector, desired, canonicalPresent)
  {
    SortedComparisonIsMultiset(existing.definition.uris, candidate.definition.uris);
    var a, b := existing.definition.(uris := []), candidate.definition.(uris := []);
    assert a.details == b.details && a.canonical == b.canonical && a.client == b.client;
  }

  /** A successful reconcile leaves the desired definition stored under the external ID, changes no
      other agent, keeps what was omitted, and answers Created exactly when there was no holder. */
  lemma ReconcileApplies(s: Service, agents: Agents, selector: string, desired: Definition, input: Input, newId: nat, now: Time)
    requires Keyed(agents) && ExternalUnique(agents) && newId !in agents
    ensures var (o, after) := Reconcile(s, agents, selector, desired, input, newId, now);
            && (o.Created? || o.Updated? || o.Unchanged? ==>
                  && o.agent.id in after && after[o.agent.id] == o.agent && after == agents[o.agent.id := o.agent]
                  && Carries(o.agent, selector, desired, input.canonicalPresent)
                  && s.externalValid(selector) && !input.externalNull && (input.externalPresent ==> input.bodyExternal == Some(selector))
                  && (o.Created? <==> forall x :: x in agents ==> agents[x].external != Some(selector))
                  && (!o.Created? ==> o.agent.id in agents && KeepsOmitted(agents[o.agent.id], o.agent, desired, input.canonicalPresent)))
            && (o.Conflict? || o.Invalid? || o.Unchanged? ==> after == agents)
  {
    var holder := Holder(agents, selector);
    if holder.Some? {
      var existing := agents[holder.value];
      var candidate := Merge(existing, desired, selector, input.canonicalPresent);
      MergeCarries(existing, desired, selector, input.canonicalPresent);
      if SameDefinition(existing, candidate) {
        SameDefinitionCarries(existing, candidate, selector, desired, input.canonicalPresent);
        assert agents == agents[holder.value := existing];
      }
    }
  }

  /** No two agents share an external ID, a canonical ID or a client URI. */
  ghost predicate NamesUnique(agents: Agents) {
    forall x, y :: x in agents && y in agents && x != y ==>
      && !(agents[x].external.Some? && agents[x].external == agents[y].external)
      && !(agents[x].definition.canonical.Some? && agents[x].definition.canonical == agents[y].definition.canonical)
      && !(exists u :: u in agents[x].definition.uris && u in agents[y].definition.uris)
  }

  /** A reconcile never makes two agents share a unique name. */
  lemma ReconcileKeepsNames(s: Service, agents: Agents, selector: string, desired: Definition, input: Input, newId: nat, now: Time)
    requires Keyed(agents) && newId !in agents && NamesUnique(agents)
    ensures NamesUnique(Reconcile(s, agents, selector, desired, input, newId, now).1)
  {
    var (o, after) := Reconcile(s, agents, selector, desired, input, newId, now);
    if o.Created? || o.Updated? {
      StoredNamesUnique(agents, o.agent);
    }
  }

  lemma StoredNamesUnique(agents: Agents, a: Agent)
    requires NamesUnique(agents) && !Clashes(agents, a)
    ensures NamesUnique(agents[a.id := a])
  {
    var after := agents[a.id := a];
    forall x, y | x in after && y in after && x != y
      ensures && !(after[x].external.Some? && after[x].external == after[y].external)
              && !(after[x].definition.canonical.Some? && after[x].definition.canonical == after[y].definition.canonical)
              && !(exists u :: u in after[x].definition.uris && u in after[y].definition.uris)
    {
      if x == a.id {
        assert !Overlap(agents[y], a);
      } else if y == a.id {
        assert !Overlap(agents[x], a);
      }
    }
  }

  ghost predicate ClientsUnique(agents: Agents) {
    forall x, y :: x in agents && y in agents && agents[x].definition.client.Some? && agents[x].definition.client == agents[y].definition.client ==> x == y
  }

  /** Where agents may not share a client ID, a reconcile never makes them share one. */
  lemma ClientsStayUnique(s: Service, agents: Agents, selector: string, desired: Definition, input: Input, newId: nat, now: Time)
    requires Keyed(agents) && newId !in agents && !s.multiAgent && ClientsUnique(agents)
    ensures ClientsUnique(Reconcile(s, agents, selector, desired, input, newId, now).1)
  {
  }

  lemma HolderIsUnique(agents: Agents, selector: string, x: nat)
    requires x in agents && Holds(agents[x], selector)
    requires forall y :: y in agents && Holds(agents[y], selector) ==> y == x
    ensures Holder(agents, selector) == Some(x)
  {
  }
}
