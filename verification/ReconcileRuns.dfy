/** Concurrent reconciles of one external ID: look-up, client check, insert, re-read, merge and
    write are separate steps that interleave with each other and with changes to other agents. */
module ReconcileRuns {
  import opened Prelude
  import opened Agents

  /** The names that the calls, or the initial holder of the external ID, use for themselves. */
  datatype Names = Names(canonicals: set<string>, clients: set<string>, uris: set<string>)

  datatype Setting = Setting(service: Service, selector: string, names: Names)

  datatype Phase =
    | Looking
    | CheckingNew
    | Inserting
    | Rereading
    | Merging(existing: Agent, retry: bool)
    | Checking(existing: Agent, candidate: Agent, retry: bool)
    | Writing(existing: Agent, candidate: Agent, retry: bool)
    | Done(outcome: Outcome)

  datatype Call = Call(desired: Definition, canonicalPresent: bool, phase: Phase)

  /** created lists the calls that answered Created; removals counts deletions of a holder. */
  datatype State = State(agents: Agents, calls: map<nat, Call>, created: seq<nat>, removals: nat)

  datatype Action =
    | Start(caller: nat, desired: Definition, canonicalPresent: bool)
    | LookUp(caller: nat, found: Option<nat>)
    | CheckNew(caller: nat)
    | Insert(caller: nat, id: nat, at: Time)
    | Reread(caller: nat, found: Option<nat>)
    | Combine(caller: nat)
    | CheckMerged(caller: nat)
    | Write(caller: nat, at: Time)
    | Fail(caller: nat)
    | Foreign(id: nat, agent: Option<Agent>)
    | Remove(id: nat)

  ghost predicate Found(agents: Agents, selector: string, found: Option<nat>) {
    && (found.Some? ==> found.value in agents && Holds(agents[found.value], selector))
    && (found.None? ==> forall x :: x in agents ==> !Holds(agents[x], selector))
  }

  predicate At(s: State, c: nat, p: Phase) {
    c in s.calls && s.calls[c].phase == p
  }

  function Move(s: State, c: nat, p: Phase): State
    requires c in s.calls
  {
    s.(calls := s.calls[c := s.calls[c].(phase := p)])
  }

  predicate Uses(names: Names, d: Definition) {
    && (d.canonical.Some? ==> d.canonical.value in names.canonicals)
    && (d.client.Some? ==> d.client.value in names.clients)
    && (forall u :: u in d.uris ==> u in names.uris)
  }

  /** An agent outside the family shares none of the family's names. */
  predicate Apart(g: Setting, a: Agent) {
    && !Holds(a, g.selector)
    && (a.definition.canonical.Some? ==> a.definition.canonical.value !in g.names.canonicals)
    && (a.definition.client.Some? ==> a.definition.client.value !in g.names.clients)
    && (forall u :: u in a.definition.uris ==> u !in g.names.uris)
  }

  function Candidate(g: Setting, call: Call, id: nat, at: Time): Agent {
    Agent(id, Some(g.selector), call.desired, at, at)
  }

  ghost predicate Step(g: Setting, s: State, a: Action, s': State) {
    match a
    case Start(c, d, present) =>
      c !in s.calls && Uses(g.names, d) && s' == s.(calls := s.calls[c := Call(d, present, Looking)])
    case LookUp(c, found) =>
      && At(s, c, Looking) && Found(s.agents, g.selector, found)
      && s' == Move(s, c, if found.Some? then Merging(s.agents[found.value], false) else CheckingNew)
    case CheckNew(c) =>
      && At(s, c, CheckingNew)
      && s' == Move(s, c, if !g.service.valid(s.calls[c].desired) then Done(Invalid)
                          else if ClientTaken(g.service, s.agents, s.calls[c].desired.client, None) then Rereading
                          else Inserting)
    case Insert(c, id, at) =>
      && At(s, c, Inserting) && id !in s.agents
      && var candidate := Candidate(g, s.calls[c], id, at);
         s' == if Clashes(s.agents, candidate) then Move(s, c, Rereading)
               else Move(s, c, Done(Created(candidate))).(agents := s.agents[id := candidate], created := s.created + [c])
    case Reread(c, found) =>
      && At(s, c, Rereading) && Found(s.agents, g.selector, found)
      && s' == Move(s, c, if found.Some? then Merging(s.agents[found.value], true) else Done(Conflict))
    case Combine(c) =>
      && c in s.calls && s.calls[c].phase.Merging?
      && var p := s.calls[c].phase;
         var candidate := Merge(p.existing, s.calls[c].desired, g.selector, s.calls[c].canonicalPresent);
         s' == Move(s, c, if !g.service.valid(candidate.definition) then Done(Invalid) else Checking(p.existing, candidate, p.retry))
    case CheckMerged(c) =>
      && c in s.calls && s.calls[c].phase.Checking?
      && var p := s.calls[c].phase;
         s' == Move(s, c, if ClientTaken(g.service, s.agents, p.candidate.definition.client, Some(p.existing.id)) then Done(Conflict)
                          else if SameDefinition(p.existing, p.candidate) then Done(Unchanged(p.existing))
                          else Writing(p.existing, p.candidate, p.retry))
    case Write(c, at) =>
      && c in s.calls && s.calls[c].phase.Writing?
      && var p := s.calls[c].phase;
         var written := p.candidate.(updatedAt := at);
         s' == if written.id !in s.agents then Move(s, c, if p.retry then Done(Conflict) else CheckingNew)
               else if Clashes(s.agents, written) then Move(s, c, Done(Conflict))
               else Move(s, c, Done(Updated(written))).(agents := s.agents[written.id := written])
    case Fail(c) => c in s.calls && !s.calls[c].phase.Done? && s' == Move(s, c, Done(Unavailable))
    case Foreign(id, agent) =>
      && (id in s.agents ==> !Holds(s.agents[id], g.selector))
      && (agent.Some? ==> agent.value.id == id && Apart(g, agent.value))
      && s' == s.(agents := if agent.Some? then s.agents[id := agent.value] else s.agents - {id})
    case Remove(id) =>
      id in s.agents && Holds(s.agents[id], g.selector) && s' == s.(agents := s.agents - {id}, removals := s.removals + 1)
  }

  ghost predicate Next(g: Setting, s: State, s': State) {
    exists a :: Step(g, s, a, s')
  }

  ghost predicate NextAt(g: Setting, tr: seq<State>, i: nat)
    requires i + 1 < |tr|
  {
    Next(g, tr[i], tr[i + 1])
  }

  ghost predicate Init(g: Setting, s: State) {
    s.calls == map[] && s.created == [] && s.removals == 0 && Family(g, s.agents)
  }

  ghost predicate Run(g: Setting, tr: seq<State>) {
    |tr| > 0 && Init(g, tr[0]) && forall i: nat :: i + 1 < |tr| ==> NextAt(g, tr, i)
  }

  // ---------------------------------------------------------------- invariants

  ghost predicate Held(agents: Agents, selector: string) {
    exists x :: x in agents && Holds(agents[x], selector)
  }

  /** At most one agent holds the external ID, and only it uses the family's names. */
  ghost predicate Family(g: Setting, agents: Agents) {
    && Keyed(agents)
    && (forall x, y :: x in agents && y in agents && Holds(agents[x], g.selector) && Holds(agents[y], g.selector) ==> x == y)
    && (forall x :: x in agents ==> if Holds(agents[x], g.selector) then Uses(g.names, agents[x].definition) else Apart(g, agents[x]))
  }

  ghost predicate Target(g: Setting, agents: Agents, existing: Agent) {
    && existing.id in agents && Holds(agents[existing.id], g.selector)
    && Uses(g.names, existing.definition)
  }

  /** What a call may rely on in its present phase. */
  ghost predicate Sound(g: Setting, agents: Agents, call: Call) {
    && Uses(g.names, call.desired)
    && match call.phase
       case Rereading => Held(agents, g.selector)
       case Merging(existing, _) => Target(g, agents, existing)
       case Checking(existing, candidate, _) =>
         Target(g, agents, existing) && candidate.id == existing.id && Holds(candidate, g.selector) && Uses(g.names, candidate.definition)
       case Writing(existing, candidate, _) =>
         Target(g, agents, existing) && candidate.id == existing.id && Holds(candidate, g.selector) && Uses(g.names, candidate.definition)
       case Done(o) => !o.Conflict? && (o.Created? || o.Updated? || o.Unchanged? ==> Held(agents, g.selector))
       case _ => true
  }

  ghost predicate Inv(g: Setting, s: State) {
    && Family(g, s.agents)
    && (forall c :: c in s.calls ==> Sound(g, s.agents, s.calls[c]))
    && (s.created != [] ==> |s.created| == 1 && Held(s.agents, g.selector))
    && (forall c :: c in s.calls && s.calls[c].phase.Done? && s.calls[c].phase.outcome.Created? ==> c in s.created)
  }

  /** As long as holders stay, what the calls rely on stays. */
  lemma SoundFramed(g: Setting, agents: Agents, agents': Agents, call: Call)
    requires Sound(g, agents, call)
    requires forall x :: x in agents && Holds(agents[x], g.selector) ==> x in agents' && Holds(agents'[x], g.selector)
    ensures Sound(g, agents', call)
    ensures Held(agents, g.selector) ==> Held(agents', g.selector)
  {
    if Held(agents, g.selector) {
      var x :| x in agents && Holds(agents[x], g.selector);
      assert x in agents' && Holds(agents'[x], g.selector);
    }
  }

  /** A definition that uses the family's names can only collide with the family's own agent. */
  lemma CollisionMeansHolder(g: Setting, agents: Agents, a: Agent)
    requires Family(g, agents) && Uses(g.names, a.definition) && a.external == Some(g.selector)
    ensures Clashes(agents, a) ==> exists x :: x in agents && x != a.id && Holds(agents[x], g.selector)
  {
    if Clashes(agents, a) {
      var x :| x in agents && x != a.id && Overlap(agents[x], a);
      assert !Apart(g, agents[x]);
    }
  }

  lemma TakenMeansHolder(g: Setting, agents: Agents, d: Definition, except: Option<nat>)
    requires Family(g, agents) && Uses(g.names, d)
    ensures ClientTaken(g.service, agents, d.client, except) ==> exists x :: x in agents && Some(x) != except && Holds(agents[x], g.selector)
  {
    if ClientTaken(g.service, agents, d.client, except) {
      var x :| x in agents && Some(x) != except && agents[x].definition.client == d.client;
      assert !Apart(g, agents[x]);
    }
  }

  lemma InsertKeepsInv(g: Setting, s: State, a: Action, s': State)
    requires Inv(g, s) && Step(g, s, a, s') && a.Insert?
    ensures Inv(g, s')
  {
    var candidate := Candidate(g, s.calls[a.caller], a.id, a.at);
    assert Sound(g, s.agents, s.calls[a.caller]);
    CollisionMeansHolder(g, s.agents, candidate);
    if !Clashes(s.agents, candidate) {
      assert forall x :: x in s.agents && Holds(s.agents[x], g.selector) ==> Overlap(s.agents[x], candidate);
      assert Holds(s'.agents[a.id], g.selector);
      forall c | c in s.calls ensures Sound(g, s'.agents, s.calls[c]) {
        SoundFramed(g, s.agents, s'.agents, s.calls[c]);
      }
    }
  }

  lemma WriteKeepsInv(g: Setting, s: State, a: Action, s': State)
    requires Inv(g, s) && Step(g, s, a, s') && a.Write?
    ensures Inv(g, s')
  {
    var p := s.calls[a.caller].phase;
    assert Sound(g, s.agents, s.calls[a.caller]);
    var written := p.candidate.(updatedAt := a.at);
    CollisionMeansHolder(g, s.agents, written);
    assert !Clashes(s.agents, written);
    assert Holds(s'.agents[written.id], g.selector);
    forall c | c in s.calls ensures Sound(g, s'.agents, s.calls[c]) {
      SoundFramed(g, s.agents, s'.agents, s.calls[c]);
    }
  }

  lemma ForeignKeepsInv(g: Setting, s: State, a: Action, s': State)
    requires Inv(g, s) && Step(g, s, a, s') && a.Foreign?
    ensures Inv(g, s')
  {
    forall c | c in s.calls ensures Sound(g, s'.agents, s.calls[c]) {
      SoundFramed(g, s.agents, s'.agents, s.calls[c]);
    }
    if Held(s.agents, g.selector) {
      var x :| x in s.agents && Holds(s.agents[x], g.selector);
      assert Holds(s'.agents[x], g.selector);
    }
  }

  /** The steps that only move one call along. */
  lemma CallKeepsInv(g: Setting, s: State, a: Action, s': State)
    requires Inv(g, s) && Step(g, s, a, s')
    requires a.Start? || a.LookUp? || a.CheckNew? || a.Reread? || a.Combine? || a.CheckMerged? || a.Fail?
    ensures Inv(g, s')
  {
    assert a.caller in s.calls ==> Sound(g, s.agents, s.calls[a.caller]);
    CallStaysSound(g, s, a, s');
    InvFramed(g, s, a.caller, s'.calls[a.caller], s');
  }

  lemma InvFramed(g: Setting, s: State, c: nat, call: Call, s': State)
    requires Inv(g, s) && s' == s.(calls := s.calls[c := call]) && Sound(g, s.agents, call)
    requires !(call.phase.Done? && call.phase.outcome.Created?)
    ensures Inv(g, s')
  {
  }

  lemma CallStaysSound(g: Setting, s: State, a: Action, s': State)
    requires Family(g, s.agents) && Step(g, s, a, s')
    requires a.Start? || a.LookUp? || a.CheckNew? || a.Reread? || a.Combine? || a.CheckMerged? || a.Fail?
    requires a.caller in s.calls ==> Sound(g, s.agents, s.calls[a.caller])
    ensures a.caller in s'.calls && Sound(g, s.agents, s'.calls[a.caller])
    ensures s' == s.(calls := s.calls[a.caller := s'.calls[a.caller]])
    ensures var p := s'.calls[a.caller].phase; !(p.Done? && p.outcome.Created?)
  {
    if a.CheckNew? {
      TakenMeansHolder(g, s.agents, s.calls[a.caller].desired, None);
    } else if a.CheckMerged? {
      var p := s.calls[a.caller].phase;
      TakenMeansHolder(g, s.agents, p.candidate.definition, Some(p.existing.id));
    }
  }

  lemma {:induction false} ReachableInv(g: Setting, tr: seq<State>, j: nat)
    requires Run(g, tr) && j < |tr| && tr[j].removals == 0
    ensures Inv(g, tr[j])
  {
    if j > 0 {
      assert NextAt(g, tr, j - 1);
      var a :| Step(g, tr[j - 1], a, tr[j]);
      ReachableInv(g, tr, j - 1);
      if a.Insert? {
        InsertKeepsInv(g, tr[j - 1], a, tr[j]);
      } else if a.Write? {
        WriteKeepsInv(g, tr[j - 1], a, tr[j]);
      } else if a.Foreign? {
        ForeignKeepsInv(g, tr[j - 1], a, tr[j]);
      } else {
        CallKeepsInv(g, tr[j - 1], a, tr[j]);
      }
    }
  }

  // ---------------------------------------------------------------- theorems

  ghost predicate Succeeded(o: Outcome) {
    o.Created? || o.Updated? || o.Unchanged?
  }

  /** Concurrent reconciles converge: without removals and foreign collisions at most one call
      answers Created, none answers Conflict, and once any call has succeeded exactly one agent
      holds the external ID. */
  lemma ReconcilesConverge(g: Setting, tr: seq<State>, j: nat)
    requires Run(g, tr) && j < |tr| && tr[j].removals == 0
    ensures forall c, d :: c in tr[j].calls && d in tr[j].calls && AnsweredCreated(tr[j], c) && AnsweredCreated(tr[j], d) ==> c == d
    ensures forall c :: c in tr[j].calls && tr[j].calls[c].phase.Done? ==> !tr[j].calls[c].phase.outcome.Conflict?
    ensures (exists c :: c in tr[j].calls && tr[j].calls[c].phase.Done? && Succeeded(tr[j].calls[c].phase.outcome)) ==>
              exists x :: SoleHolder(tr[j].agents, g.selector, x)
  {
    ReachableInv(g, tr, j);
    var s := tr[j];
    forall c | c in s.calls ensures Sound(g, s.agents, s.calls[c]) {
    }
    if c :| c in s.calls && s.calls[c].phase.Done? && Succeeded(s.calls[c].phase.outcome) {
      assert Sound(g, s.agents, s.calls[c]);
      var x :| x in s.agents && Holds(s.agents[x], g.selector);
      assert SoleHolder(s.agents, g.selector, x);
    }
  }

  ghost predicate AnsweredCreated(s: State, c: nat)
    requires c in s.calls
  {
    s.calls[c].phase.Done? && s.calls[c].phase.outcome.Created?
  }

  ghost predicate SoleHolder(agents: Agents, selector: string, x: nat) {
    x in agents && Holds(agents[x], selector) && forall y :: y in agents && Holds(agents[y], selector) ==> y == x
  }

  // ---------------------------------------------------------------- what the answers carry

  /** From the merge on, a call's candidate carries what the call asked for, and so does its answer. */
  ghost predicate Bears(g: Setting, call: Call) {
    match call.phase
    case Checking(_, candidate, _) => Carries(candidate, g.selector, call.desired, call.canonicalPresent)
    case Writing(_, candidate, _) => Carries(candidate, g.selector, call.desired, call.canonicalPresent)
    case Done(o) => Succeeded(o) ==> Carries(o.agent, g.selector, call.desired, call.canonicalPresent)
    case _ => true
  }

  lemma StepBears(g: Setting, s: State, a: Action, s': State, c: nat)
    requires Step(g, s, a, s') && c in s'.calls && (c in s.calls ==> Bears(g, s.calls[c]))
    ensures Bears(g, s'.calls[c])
  {
    if a.Combine? && a.caller == c {
      MergeCarries(s.calls[c].phase.existing, s.calls[c].desired, g.selector, s.calls[c].canonicalPresent);
    } else if a.CheckMerged? && a.caller == c {
      var p := s.calls[c].phase;
      if SameDefinition(p.existing, p.candidate) {
        SameDefinitionCarries(p.existing, p.candidate, g.selector, s.calls[c].desired, s.calls[c].canonicalPresent);
      }
    }
  }

  /** Whatever interleaves, a call that succeeds answers with an agent that carries the definition
      it asked for. */
  lemma {:induction false} AnswersCarryDefinition(g: Setting, tr: seq<State>, j: nat, c: nat)
    requires Run(g, tr) && j < |tr| && c in tr[j].calls
    ensures Bears(g, tr[j].calls[c])
  {
    if j > 0 {
      assert NextAt(g, tr, j - 1);
      var a :| Step(g, tr[j - 1], a, tr[j]);
      if c in tr[j - 1].calls {
        AnswersCarryDefinition(g, tr, j - 1, c);
      }
      StepBears(g, tr[j - 1], a, tr[j], c);
    }
  }
}
