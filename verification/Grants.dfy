/** User consent: the three validators of a grant submission, their exact joint acceptance, and the
    upsert that follows. */
module Grants {
  import opened Prelude

  datatype ServiceScope = ServiceScope(service: nat, mandatory: bool)

  datatype PermissionSet = PermissionSet(id: nat, scopes: seq<ServiceScope>)

  datatype Declared = Declared(setId: nat, mandatory: bool)

  datatype Requirement = Requirement(service: nat, mandatory: bool)

  datatype Agent = Agent(sets: seq<Declared>, requirements: seq<Requirement>)

  datatype Entry = Entry(setId: nat, services: seq<nat>)

  datatype GrantError =
    | AgentNotFound
    | MissingMandatorySet
    | GrantValidation
    | InvalidServiceInclusion
    | InvalidScopes
    | UnconnectedServices
    | UnknownSet
    | StorageFailure

  // ---------------------------------------------------------------- what is being indexed

  function Services(ps: PermissionSet): set<nat> {
    set sc | sc in ps.scopes :: sc.service
  }

  /** With several resolved sets of one ID, the index keeps the last. */
  function Last(resolved: seq<PermissionSet>, id: nat): Option<PermissionSet> {
    if |resolved| == 0 then None
    else if resolved[|resolved| - 1].id == id then Some(resolved[|resolved| - 1])
    else Last(resolved[..|resolved| - 1], id)
  }

  /** Without service requirements every service is in the agent's scope. */
  predicate InScope(agent: Agent, service: nat) {
    agent.requirements == [] || exists r :: r in agent.requirements && r.service == service
  }

  predicate Required(agent: Agent, service: nat) {
    exists r :: r in agent.requirements && r.service == service && r.mandatory
  }

  function Valid(agent: Agent, ps: PermissionSet): set<nat> {
    set sc | sc in ps.scopes && InScope(agent, sc.service) :: sc.service
  }

  /** The services that a grant of the set cannot leave out. */
  function Effective(agent: Agent, ps: PermissionSet): set<nat> {
    set sc | sc in ps.scopes && InScope(agent, sc.service) && (sc.mandatory || Required(agent, sc.service)) :: sc.service
  }

  /** The mandatory index accumulates over all resolved sets of one ID. */
  function EffectiveFor(agent: Agent, resolved: seq<PermissionSet>, id: nat): set<nat> {
    if |resolved| == 0 then {}
    else
      var last := resolved[|resolved| - 1];
      EffectiveFor(agent, resolved[..|resolved| - 1], id) + if last.id == id then Effective(agent, last) else {}
  }

  // ---------------------------------------------------------------- scope inclusion

  method IndexServices(resolved: seq<PermissionSet>) returns (index: map<nat, set<nat>>)
    ensures forall id :: id in index <==> Last(resolved, id).Some?
    ensures forall id :: id in index ==> index[id] == Services(Last(resolved, id).value)
  {
    index := map[];
    for i := 0 to |resolved|
      invariant forall id :: id in index <==> Last(resolved[..i], id).Some?
      invariant forall id :: id in index ==> index[id] == Services(Last(resolved[..i], id).value)
    {
      var ps := resolved[i];
      var services: set<nat> := {};
      for j := 0 to |ps.scopes|
        invariant services == set sc | sc in ps.scopes[..j] :: sc.service
      {
        assert ps.scopes[..j + 1] == ps.scopes[..j] + [ps.scopes[j]];
        services := services + {ps.scopes[j].service};
      }
      assert ps.scopes[..|ps.scopes|] == ps.scopes;
      assert resolved[..i + 1][..i] == resolved[..i];
      index := index[ps.id := services];
    }
    assert resolved[..|resolved|] == resolved;
  }

  method AllIn(services: seq<nat>, allowed: set<nat>) returns (ok: bool)
    ensures ok <==> forall s :: s in services ==> s in allowed
  {
    for i := 0 to |services|
      invariant forall k :: 0 <= k < i ==> services[k] in allowed
    {
      if services[i] !in allowed {
        assert services[i] in services;
        return false;
      }
    }
    ok := true;
  }

  predicate Included(resolved: seq<PermissionSet>, e: Entry) {
    var ps := Last(resolved, e.setId);
    ps.Some? && forall s :: s in e.services ==> s in Services(ps.value)
  }

  method ValidateScopeInclusion(entries: seq<Entry>, resolved: seq<PermissionSet>) returns (error: Option<GrantError>)
    ensures error.None? <==> forall e :: e in entries ==> Included(resolved, e)
    ensures error.Some? ==> error.value.InvalidServiceInclusion? || error.value.InvalidScopes?
  {
    var index := IndexServices(resolved);
    for i := 0 to |entries|
      invariant forall k :: 0 <= k < i ==> Included(resolved, entries[k])
    {
      var e := entries[i];
      if e.setId !in index {
        assert e in entries && !Included(resolved, e);
        return Some(InvalidServiceInclusion);
      }
      var ok := AllIn(e.services, index[e.setId]);
      if !ok {
        assert e in entries && !Included(resolved, e);
        return Some(InvalidScopes);
      }
    }
    error := None;
  }

  // ---------------------------------------------------------------- grant structure

  /** With a set declared twice the last declaration decides whether it is mandatory. */
  function DeclaredAs(sets: seq<Declared>, id: nat): Option<bool> {
    if |sets| == 0 then None
    else if sets[|sets| - 1].setId == id then Some(sets[|sets| - 1].mandatory)
    else DeclaredAs(sets[..|sets| - 1], id)
  }

  method IndexDeclared(sets: seq<Declared>) returns (index: map<nat, bool>)
    ensures forall id :: (if id in index then Some(index[id]) else None) == DeclaredAs(sets, id)
  {
    index := map[];
    for i := 0 to |sets|
      invariant forall id :: (if id in index then Some(index[id]) else None) == DeclaredAs(sets[..i], id)
    {
      assert sets[..i + 1][..i] == sets[..i];
      index := index[sets[i].setId := sets[i].mandatory];
    }
    assert sets[..|sets|] == sets;
  }

  method CheckDeclared(entries: seq<Entry>, declared: map<nat, bool>) returns (granted: Option<set<nat>>)
    ensures granted.Some? <==> forall e :: e in entries ==> e.setId in declared
    ensures granted.Some? ==> granted.value == set e | e in entries :: e.setId
  {
    var ids: set<nat> := {};
    for i := 0 to |entries|
      invariant ids == set e | e in entries[..i] :: e.setId
      invariant forall k :: 0 <= k < i ==> entries[k].setId in declared
    {
      assert entries[..i + 1] == entries[..i] + [entries[i]];
      if entries[i].setId !in declared {
        assert entries[i] in entries;
        return None;
      }
      ids := ids + {entries[i].setId};
    }
    assert entries[..|entries|] == entries;
    granted := Some(ids);
  }

  predicate MandatoryPresent(sets: seq<Declared>, granted: set<nat>) {
    forall d :: d in sets && d.mandatory ==> d.setId in granted
  }

  method CheckMandatoryPresent(sets: seq<Declared>, granted: set<nat>) returns (ok: bool)
    ensures ok <==> MandatoryPresent(sets, granted)
  {
    var missing := 0;
    for i := 0 to |sets|
      invariant missing == 0 <==> forall k :: 0 <= k < i && sets[k].mandatory ==> sets[k].setId in granted
      invariant missing >= 0
    {
      if sets[i].mandatory && sets[i].setId !in granted {
        missing := missing + 1;
      }
    }
    ok := missing == 0;
  }

  predicate NotEmptied(sets: seq<Declared>, e: Entry) {
    DeclaredAs(sets, e.setId) == Some(true) ==> e.services != []
  }

  method CheckMandatoryFilled(entries: seq<Entry>, sets: seq<Declared>, declared: map<nat, bool>) returns (ok: bool)
    requires forall id :: (if id in declared then Some(declared[id]) else None) == DeclaredAs(sets, id)
    ensures ok <==> forall e :: e in entries ==> NotEmptied(sets, e)
  {
    for i := 0 to |entries|
      invariant forall k :: 0 <= k < i ==> NotEmptied(sets, entries[k])
    {
      var id := entries[i].setId;
      assert (if id in declared then Some(declared[id]) else None) == DeclaredAs(sets, id);
      if id in declared && declared[id] && |entries[i].services| == 0 {
        assert entries[i] in entries && !NotEmptied(sets, entries[i]);
        return false;
      }
    }
    ok := true;
  }

  method IndexRequirements(agent: Agent) returns (all: set<nat>, mandatory: set<nat>)
    ensures all == set r | r in agent.requirements :: r.service
    ensures forall s :: s in mandatory <==> Required(agent, s)
    ensures forall s :: InScope(agent, s) <==> all == {} || s in all
  {
    all, mandatory := {}, {};
    var rs := agent.requirements;
    for i := 0 to |rs|
      invariant all == set r | r in rs[..i] :: r.service
      invariant mandatory == set r | r in rs[..i] && r.mandatory :: r.service
    {
      assert rs[..i + 1] == rs[..i] + [rs[i]];
      all := all + {rs[i].service};
      if rs[i].mandatory {
        mandatory := mandatory + {rs[i].service};
      }
    }
    assert rs[..|rs|] == rs;
    if |rs| > 0 {
      assert rs[0] in rs && rs[0].service in all;
    }
  }

  method SplitScopes(agent: Agent, ps: PermissionSet, all: set<nat>, mandatory: set<nat>) returns (valid: set<nat>, effective: set<nat>)
    requires forall s :: s in mandatory <==> Required(agent, s)
    requires forall s :: InScope(agent, s) <==> all == {} || s in all
    ensures valid == Valid(agent, ps) && effective == Effective(agent, ps)
  {
    valid, effective := {}, {};
    var scopes := ps.scopes;
    for i := 0 to |scopes|
      invariant valid == Valid(agent, PermissionSet(ps.id, scopes[..i]))
      invariant effective == Effective(agent, PermissionSet(ps.id, scopes[..i]))
    {
      var sc := scopes[i];
      assert scopes[..i + 1] == scopes[..i] + [sc];
      assert InScope(agent, sc.service) <==> all == {} || sc.service in all;
      if all == {} || sc.service in all {
        valid := valid + {sc.service};
        if sc.service in mandatory || sc.mandatory {
          effective := effective + {sc.service};
        }
      }
    }
    assert PermissionSet(ps.id, scopes[..|scopes|]) == ps;
  }

  ghost predicate Indexed(agent: Agent, resolved: seq<PermissionSet>, valid: map<nat, set<nat>>, effective: map<nat, set<nat>>) {
    && (forall id :: id in valid <==> Last(resolved, id).Some?)
    && (forall id :: id in valid ==> valid[id] == Valid(agent, Last(resolved, id).value))
    && (forall id :: (if id in effective then effective[id] else {}) == EffectiveFor(agent, resolved, id))
  }

  lemma IndexExtended(agent: Agent, resolved: seq<PermissionSet>, ps: PermissionSet, valid: map<nat, set<nat>>, effective: map<nat, set<nat>>)
    requires Indexed(agent, resolved, valid, effective)
    ensures Indexed(agent, resolved + [ps], valid[ps.id := Valid(agent, ps)],
                    effective[ps.id := (if ps.id in effective then effective[ps.id] else {}) + Effective(agent, ps)])
  {
    assert (resolved + [ps])[..|resolved|] == resolved;
  }

  method IndexSets(agent: Agent, resolved: seq<PermissionSet>) returns (valid: map<nat, set<nat>>, effective: map<nat, set<nat>>)
    ensures Indexed(agent, resolved, valid, effective)
  {
    var all, mandatory := IndexRequirements(agent);
    valid, effective := map[], map[];
    for i := 0 to |resolved|
      invariant Indexed(agent, resolved[..i], valid, effective)
    {
      var ps := resolved[i];
      IndexExtended(agent, resolved[..i], ps, valid, effective);
      assert resolved[..i + 1] == resolved[..i] + [ps];
      var v, e := SplitScopes(agent, ps, all, mandatory);
      valid := valid[ps.id := v];
      effective := effective[ps.id := (if ps.id in effective then effective[ps.id] else {}) + e];
    }
    assert resolved[..|resolved|] == resolved;
  }

  /** Unresolved sets are skipped here; scope inclusion has already refused them. */
  predicate Fits(agent: Agent, resolved: seq<PermissionSet>, e: Entry) {
    var ps := Last(resolved, e.setId);
    ps.Some? ==>
      && (forall s :: s in e.services ==> s in Valid(agent, ps.value))
      && (forall s :: s in EffectiveFor(agent, resolved, e.setId) ==> s in e.services)
  }

  method CheckEntry(agent: Agent, resolved: seq<PermissionSet>, e: Entry, valid: map<nat, set<nat>>, effective: map<nat, set<nat>>) returns (ok: bool)
    requires Indexed(agent, resolved, valid, effective)
    ensures ok <==> Fits(agent, resolved, e)
  {
    if e.setId !in valid {
      return true;
    }
    var ok0 := AllIn(e.services, valid[e.setId]);
    if !ok0 {
      return false;
    }
    var included := set s | s in e.services;
    assert (if e.setId in effective then effective[e.setId] else {}) == EffectiveFor(agent, resolved, e.setId);
    ok := e.setId in effective ==> effective[e.setId] <= included;
  }

  /** What the structure validator accepts, for every declaration and every resolved list. */
  ghost predicate Structured(agent: Agent, entries: seq<Entry>, resolved: seq<PermissionSet>) {
    && agent.sets != [] && entries != []
    && (forall e :: e in entries ==> DeclaredAs(agent.sets, e.setId).Some?)
    && MandatoryPresent(agent.sets, set e | e in entries :: e.setId)
    && (forall e :: e in entries ==> NotEmptied(agent.sets, e))
    && (forall e :: e in entries ==> Fits(agent, resolved, e))
  }

  method CheckEntries(agent: Agent, entries: seq<Entry>, resolved: seq<PermissionSet>) returns (ok: bool)
    ensures ok <==> forall e :: e in entries ==> Fits(agent, resolved, e)
  {
    var valid, effective := IndexSets(agent, resolved);
    for i := 0 to |entries|
      invariant forall k :: 0 <= k < i ==> Fits(agent, resolved, entries[k])
    {
      var fits := CheckEntry(agent, resolved, entries[i], valid, effective);
      if !fits {
        assert entries[i] in entries;
        return false;
      }
    }
    ok := true;
  }

  method ValidateGrantStructure(agent: Agent, entries: seq<Entry>, resolved: seq<PermissionSet>) returns (error: Option<GrantError>)
    ensures error.None? <==> Structured(agent, entries, resolved)
  {
    if |agent.sets| == 0 || |entries| == 0 {
      return Some(MissingMandatorySet);
    }
    var declared := IndexDeclared(agent.sets);
    assert forall id :: id in declared <==> DeclaredAs(agent.sets, id).Some? by {
      assert forall id :: (if id in declared then Some(declared[id]) else None) == DeclaredAs(agent.sets, id);
    }
    var granted := CheckDeclared(entries, declared);
    if granted.None? {
      return Some(GrantValidation);
    }
    var present := CheckMandatoryPresent(agent.sets, granted.value);
    if !present {
      return Some(MissingMandatorySet);
    }
    var filled := CheckMandatoryFilled(entries, agent.sets, declared);
    if !filled {
      return Some(InvalidServiceInclusion);
    }
    var fit := CheckEntries(agent, entries, resolved);
    error := if fit then None else Some(InvalidServiceInclusion);
  }

  // ---------------------------------------------------------------- active sessions

  function IncludedServices(entries: seq<Entry>): set<nat> {
    set e, s | e in entries && s in e.services :: s
  }

  lemma IncludedServicesExact(entries: seq<Entry>, included: set<nat>, active: seq<nat>)
    requires included == IncludedServices(entries)
    ensures (included <= set s | s in active) <==> forall e, s :: e in entries && s in e.services ==> s in active
  {
    var activeSet := set s | s in active;
    if included <= activeSet {
      forall e, s | e in entries && s in e.services ensures s in active {
        assert s in included;
      }
    } else {
      var s :| s in included && s !in activeSet;
      var e :| e in entries && s in e.services;
      assert s !in active;
    }
  }

  method ValidateSubmission(entries: seq<Entry>, active: seq<nat>) returns (error: Option<GrantError>)
    ensures error.None? <==> forall e, s :: e in entries && s in e.services ==> s in active
    ensures error.Some? ==> error.value.UnconnectedServices?
  {
    var activeSet := set s | s in active;
    var included: set<nat> := {};
    for i := 0 to |entries|
      invariant included == IncludedServices(entries[..i])
    {
      assert entries[..i + 1] == entries[..i] + [entries[i]];
      included := included + (set s | s in entries[i].services);
    }
    assert entries[..|entries|] == entries;
    IncludedServicesExact(entries, included, active);
    error := if included <= activeSet then None else Some(UnconnectedServices);
  }

  // ---------------------------------------------------------------- exact acceptance

  predicate DistinctSets(agent: Agent, resolved: seq<PermissionSet>) {
    && (forall i, j :: 0 <= i < j < |agent.sets| ==> agent.sets[i].setId != agent.sets[j].setId)
    && (forall i, j :: 0 <= i < j < |resolved| ==> resolved[i].id != resolved[j].id)
  }

  predicate DeclaredSet(agent: Agent, id: nat) {
    exists d :: d in agent.sets && d.setId == id
  }

  predicate MandatorySet(agent: Agent, id: nat) {
    exists d :: d in agent.sets && d.setId == id && d.mandatory
  }

  /** The entry includes only services of the set that the agent uses, and leaves out none that is
      mandatory for the set or for the agent. */
  predicate Honours(agent: Agent, ps: PermissionSet, e: Entry) {
    && (forall s :: s in e.services ==>
          && (exists sc :: sc in ps.scopes && sc.service == s)
          && (agent.requirements != [] ==> exists r :: r in agent.requirements && r.service == s))
    && (forall sc :: sc in ps.scopes && sc.mandatory && agent.requirements == [] ==> sc.service in e.services)
    && (forall sc, r :: sc in ps.scopes && r in agent.requirements && r.service == sc.service && (sc.mandatory || r.mandatory) ==> sc.service in e.services)
  }

  predicate Honoured(agent: Agent, resolved: seq<PermissionSet>, e: Entry) {
    exists ps :: ps in resolved && ps.id == e.setId && Honours(agent, ps, e)
  }

  /** A submission that should be accepted, in terms of the agent's declaration alone. */
  ghost predicate Acceptable(agent: Agent, entries: seq<Entry>, resolved: seq<PermissionSet>, active: seq<nat>) {
    && entries != []
    && (forall e :: e in entries ==> DeclaredSet(agent, e.setId) && Honoured(agent, resolved, e))
    && (forall d :: d in agent.sets && d.mandatory ==> exists e :: e in entries && e.setId == d.setId)
    && (forall e :: e in entries && MandatorySet(agent, e.setId) ==> e.services != [])
    && (forall e, s :: e in entries && s in e.services ==> s in active)
  }

  lemma {:induction false} DeclaredAsMeans(sets: seq<Declared>, id: nat)
    requires forall i, j :: 0 <= i < j < |sets| ==> sets[i].setId != sets[j].setId
    ensures DeclaredAs(sets, id).Some? <==> exists d :: d in sets && d.setId == id
    ensures DeclaredAs(sets, id) == Some(true) <==> exists d :: d in sets && d.setId == id && d.mandatory
  {
    if |sets| > 0 {
      var front, last := sets[..|sets| - 1], sets[|sets| - 1];
      DeclaredAsMeans(front, id);
      assert sets == front + [last];
      assert last in sets;
      assert forall d :: d in front ==> d.setId != last.setId;
    }
  }

  lemma {:induction false} LastMeans(resolved: seq<PermissionSet>, id: nat)
    ensures var r := Last(resolved, id);
            && (r.Some? ==> r.value in resolved && r.value.id == id)
            && (r.None? ==> forall ps :: ps in resolved ==> ps.id != id)
  {
    if |resolved| > 0 {
      LastMeans(resolved[..|resolved| - 1], id);
      assert resolved == resolved[..|resolved| - 1] + [resolved[|resolved| - 1]];
    }
  }

  lemma {:induction false} EffectiveNone(agent: Agent, resolved: seq<PermissionSet>, id: nat)
    requires forall ps :: ps in resolved ==> ps.id != id
    ensures EffectiveFor(agent, resolved, id) == {}
  {
    if |resolved| > 0 {
      EffectiveNone(agent, resolved[..|resolved| - 1], id);
    }
  }

  lemma {:induction false} EffectiveOnce(agent: Agent, resolved: seq<PermissionSet>, ps: PermissionSet)
    requires forall i, j :: 0 <= i < j < |resolved| ==> resolved[i].id != resolved[j].id
    requires ps in resolved
    ensures Last(resolved, ps.id) == Some(ps) && EffectiveFor(agent, resolved, ps.id) == Effective(agent, ps)
  {
    var front, last := resolved[..|resolved| - 1], resolved[|resolved| - 1];
    assert resolved == front + [last];
    if last.id == ps.id {
      var i :| 0 <= i < |resolved| && resolved[i] == ps;
      assert i == |resolved| - 1;
      EffectiveNone(agent, front, ps.id);
    } else {
      EffectiveOnce(agent, front, ps);
    }
  }

  lemma HonoursMeans(agent: Agent, ps: PermissionSet, e: Entry)
    ensures Honours(agent, ps, e) <==> (forall s :: s in e.services ==> s in Valid(agent, ps)) && (forall s :: s in Effective(agent, ps) ==> s in e.services)
  {
    if Honours(agent, ps, e) {
      forall s | s in Effective(agent, ps) ensures s in e.services {
        var sc :| sc in ps.scopes && sc.service == s && InScope(agent, s) && (sc.mandatory || Required(agent, s));
        if agent.requirements != [] {
          var r :| r in agent.requirements && r.service == s && (sc.mandatory || r.mandatory);
        }
      }
      forall s | s in e.services ensures s in Valid(agent, ps) {
        var sc :| sc in ps.scopes && sc.service == s;
        assert InScope(agent, s);
      }
    }
    if (forall s :: s in e.services ==> s in Valid(agent, ps)) && (forall s :: s in Effective(agent, ps) ==> s in e.services) {
      forall sc | sc in ps.scopes && sc.mandatory && agent.requirements == [] ensures sc.service in e.services {
        assert sc.service in Effective(agent, ps);
      }
      forall sc, r | sc in ps.scopes && r in agent.requirements && r.service == sc.service && (sc.mandatory || r.mandatory) ensures sc.service in e.services {
        assert InScope(agent, sc.service) && (sc.mandatory || Required(agent, sc.service));
        assert sc.service in Effective(agent, ps);
      }
    }
  }

  lemma EntryAgrees(agent: Agent, resolved: seq<PermissionSet>, e: Entry)
    requires DistinctSets(agent, resolved)
    ensures Included(resolved, e) && Fits(agent, resolved, e) <==> Honoured(agent, resolved, e)
  {
    LastMeans(resolved, e.setId);
    var r := Last(resolved, e.setId);
    if r.Some? {
      HonoursMeans(agent, r.value, e);
      EffectiveOnce(agent, resolved, r.value);
      assert forall ps :: ps in resolved && ps.id == e.setId ==> ps == r.value by {
        forall ps | ps in resolved && ps.id == e.setId ensures ps == r.value {
          EffectiveOnce(agent, resolved, ps);
        }
      }
    }
  }

  lemma MandatoryPresentMeans(sets: seq<Declared>, entries: seq<Entry>)
    ensures MandatoryPresent(sets, set e | e in entries :: e.setId) <==>
              forall d :: d in sets && d.mandatory ==> exists e :: e in entries && e.setId == d.setId
  {
  }

  /** The three validators together accept exactly the acceptable submissions. */
  lemma AcceptanceIsExact(agent: Agent, entries: seq<Entry>, resolved: seq<PermissionSet>, active: seq<nat>)
    requires DistinctSets(agent, resolved)
    ensures && (forall e :: e in entries ==> Included(resolved, e))
            && Structured(agent, entries, resolved)
            && (forall e, s :: e in entries && s in e.services ==> s in active)
            <==> Acceptable(agent, entries, resolved, active)
  {
    forall e | e in entries
      ensures Included(resolved, e) && Fits(agent, resolved, e) <==> Honoured(agent, resolved, e)
      ensures DeclaredAs(agent.sets, e.setId).Some? <==> DeclaredSet(agent, e.setId)
      ensures NotEmptied(agent.sets, e) <==> (MandatorySet(agent, e.setId) ==> e.services != [])
    {
      EntryAgrees(agent, resolved, e);
      DeclaredAsMeans(agent.sets, e.setId);
    }
    MandatoryPresentMeans(agent.sets, entries);
    if entries != [] {
      assert entries[0] in entries;
    }
  }

  // ---------------------------------------------------------------- granting

  datatype Grant = Grant(id: nat, validUntil: Option<Time>, sets: seq<Entry>, updatedAt: Time)

  /** A grant is keyed by its principal and agent. */
  datatype Pair = Pair(principal: string, agent: nat)

  datatype RefreshSession = RefreshSession(id: nat, pair: Pair)

  datatype GrantRequest = GrantRequest(pair: Pair, validUntil: Option<Time>, sets: seq<Entry>)

  predicate EntryFilled(e: Entry) {
    e.setId != 0 && e.services != [] && 0 !in e.services
  }

  /** The entity's own validation; identifiers are zero when absent. */
  predicate Storable(req: GrantRequest, now: Time) {
    && req.pair.principal != "" && req.pair.agent != 0
    && (req.validUntil.Some? ==> req.validUntil.value >= now)
    && forall e :: e in req.sets ==> EntryFilled(e)
  }

  predicate ExpiredGrant(g: Grant, now: Time) {
    g.validUntil.Some? && g.validUntil.value <= now
  }

  predicate MatchesRequest(g: Grant, req: GrantRequest) {
    g.validUntil == req.validUntil && g.sets == req.sets
  }

  function Without(sessions: set<RefreshSession>, pair: Pair): set<RefreshSession> {
    set r | r in sessions && r.pair != pair
  }

  ghost predicate Passes(agent: Option<Agent>, req: GrantRequest, known: set<nat>, resolved: seq<PermissionSet>, active: seq<nat>) {
    && agent.Some? && (forall e :: e in req.sets ==> e.setId in known)
    && (forall e :: e in req.sets ==> Included(resolved, e))
    && Structured(agent.value, req.sets, resolved)
    && (forall e, s :: e in req.sets && s in e.services ==> s in active)
  }

  /** A repository fault can hit the revocation or the write. */
  datatype Faults = Faults(revoke: bool, write: bool)

  method CheckRequest(agent: Option<Agent>, req: GrantRequest, known: set<nat>, resolved: seq<PermissionSet>, active: seq<nat>) returns (error: Option<GrantError>)
    ensures error.None? <==> Passes(agent, req, known, resolved, active)
  {
    if agent.None? {
      return Some(AgentNotFound);
    }
    for i := 0 to |req.sets|
      invariant forall k :: 0 <= k < i ==> req.sets[k].setId in known
    {
      if req.sets[i].setId !in known {
        assert req.sets[i] in req.sets;
        return Some(UnknownSet);
      }
    }
    error := ValidateScopeInclusion(req.sets, resolved);
    if error.Some? {
      return;
    }
    error := ValidateGrantStructure(agent.value, req.sets, resolved);
    if error.Some? {
      return;
    }
    error := ValidateSubmission(req.sets, active);
  }

  class ConsentStore {
    var grants: map<Pair, Grant>
    var sessions: set<RefreshSession>

    constructor ()
      ensures grants == map[] && sessions == {}
    {
      grants, sessions := map[], {};
    }

    /** Upsert: only a request that passes every validator is stored, nothing else changes, and an
        expired grant is never renewed while refresh sessions issued under it remain. */
    method GrantConsent(agent: Option<Agent>, req: GrantRequest, known: set<nat>, resolved: seq<PermissionSet>, active: seq<nat>,
                        newId: nat, now: Time, faults: Faults) returns (result: Result<Grant, GrantError>)
      modifies this
      ensures result.Ok? ==> Passes(agent, req, known, resolved, active)
      ensures && Passes(agent, req, known, resolved, active) && faults == Faults(false, false)
              && req.pair.principal != "" && req.pair.agent != 0
              && (req.validUntil.Some? ==> now <= req.validUntil.value)
              && (forall e :: e in req.sets ==> e.setId != 0 && |e.services| > 0 && forall s :: s in e.services ==> s != 0)
              ==> result.Ok?
      ensures result.Ok? && grants != old(grants) ==>
                && req.pair.principal != "" && req.pair.agent != 0
                && (req.validUntil.Some? ==> now <= req.validUntil.value)
                && forall e :: e in req.sets ==> e.setId != 0 && |e.services| > 0 && forall s :: s in e.services ==> s != 0
      ensures result.Err? ==> grants == old(grants)
      ensures result.Ok? ==>
                && req.pair in grants && grants[req.pair] == result.value
                && result.value.validUntil == req.validUntil && result.value.sets == req.sets
                && grants == old(grants)[req.pair := result.value]
                && result.value.id == (if req.pair in old(grants) then old(grants)[req.pair].id else newId)
      ensures sessions <= old(sessions) && forall r :: r in old(sessions) && r.pair != req.pair ==> r in sessions
      ensures grants != old(grants) && req.pair in old(grants)
              && old(grants)[req.pair].validUntil.Some? && old(grants)[req.pair].validUntil.value <= now ==>
                forall r :: r in sessions ==> r.pair != req.pair
      ensures sessions != old(sessions) ==>
                req.pair in old(grants) && old(grants)[req.pair].validUntil.Some? && old(grants)[req.pair].validUntil.value <= now
    {
      var refusal := CheckRequest(agent, req, known, resolved, active);
      if refusal.Some? {
        return Err(refusal.value);
      }
      if req.pair in grants {
        var existing := grants[req.pair];
        if MatchesRequest(existing, req) {
          assert grants == grants[req.pair := existing];
          return Ok(existing);
        }
        var renewed := Grant(existing.id, req.validUntil, req.sets, now);
        if !Storable(req, now) {
          return Err(GrantValidation);
        }
        if ExpiredGrant(existing, now) {
          if faults.revoke {
            return Err(StorageFailure);
          }
          sessions := Without(sessions, req.pair);
        }
        if faults.write {
          return Err(StorageFailure);
        }
        grants := grants[req.pair := renewed];
        return Ok(renewed);
      }
      var created := Grant(newId, req.validUntil, req.sets, now);
      if !Storable(req, now) {
        return Err(GrantValidation);
      }
      if faults.write {
        return Err(StorageFailure);
      }
      grants := grants[req.pair := created];
      result := Ok(created);
    }
  }
}
