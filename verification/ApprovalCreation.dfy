/** Creation of pending approvals on one service instance: every call runs its find, rate-limit,
    count and create steps under one mutex, interleaved with decisions and the passage of time. */
module ApprovalCreation {
  import opened Prelude
  import opened Approvals

  /** Which of the optional collaborators the service was built with. */
  datatype Config = Config(queries: bool, limiter: bool, metrics: bool, maxPending: nat, pendingTtl: Time)

  datatype Outcome = Returned(id: string, isNew: bool) | RateLimited | StorageFailure

  datatype Phase =
    | Waiting
    | Finding
    | Limiting
    | Refinding
    | Counting
    | Creating(expiresAt: Time)
    | Done(outcome: Outcome)

  datatype Creator = Creator(key: Key, session: Option<string>, phase: Phase)

  /** skipped records the pairs whose count query failed, once per failure. */
  datatype State = State(
    store: Store,
    now: Time,
    lock: Option<nat>,
    creators: map<nat, Creator>,
    skipped: multiset<Pair>)

  datatype Action =
    | Arrive(caller: nat, key: Key, session: Option<string>)
    | Acquire(caller: nat)
    | Find(caller: nat, found: Option<string>)
    | Limit(caller: nat, allowed: bool)
    | Refind(caller: nat, found: Option<string>)
    | Count(caller: nat, fails: bool)
    | Store(caller: nat, id: string, after: Approvals.Store, result: string, announceFails: bool)
    | Abort(caller: nat)
    | Decide(decision: Mutation, changed: Approvals.Store)
    | Tick(duration: nat)

  function PairFor(key: Key): Pair {
    Pair(key.principal, key.agent)
  }

  function PendingFor(st: Approvals.Store, p: Pair, now: Time): set<string> {
    PendingOf(st, p.principal, p.agent, now)
  }

  function Fresh(c: Creator): Approval
    requires c.phase.Creating?
  {
    Approval(c.key, c.session, Pending, None, false, c.phase.expiresAt)
  }

  /** A new approval is announced by a version increment, and the call fails when that fails,
      although the approval is stored. */
  function Answer(id: string, result: string, announceFails: bool): Outcome {
    if result == id && announceFails then StorageFailure else Returned(result, result == id)
  }

  /** The repository's answer to a look-up: some live approval with the key, if there is one. */
  ghost predicate Finds(st: Approvals.Store, key: Key, now: Time, found: Option<string>) {
    && (found.Some? ==> found.value in st && st[found.value].key == key && Live(st[found.value], now))
    && (found.None? ==> forall x :: x in st && st[x].key == key ==> !Live(st[x], now))
  }

  predicate Holding(p: Phase) {
    !p.Waiting? && !p.Done?
  }

  predicate At(s: State, c: nat, p: Phase) {
    c in s.creators && s.creators[c].phase == p
  }

  function Move(s: State, c: nat, p: Phase): State
    requires c in s.creators
  {
    s.(creators := s.creators[c := s.creators[c].(phase := p)], lock := if p.Done? then None else Some(c))
  }

  ghost predicate Step(cfg: Config, s: State, a: Action, s': State) {
    match a
    case Arrive(c, key, session) =>
      c !in s.creators && s' == s.(creators := s.creators[c := Creator(key, session, Waiting)])
    case Acquire(c) => At(s, c, Waiting) && s.lock.None? && s' == Move(s, c, Finding)
    case Find(c, found) =>
      && At(s, c, Finding)
      && (if cfg.queries then Finds(s.store, s.creators[c].key, s.now, found) else found.None?)
      && s' == Move(s, c, if found.Some? then Done(Returned(found.value, false)) else Limiting)
    case Limit(c, allowed) =>
      At(s, c, Limiting) && s' == Move(s, c, if !cfg.limiter || allowed then Counting else Refinding)
    case Refind(c, found) =>
      && At(s, c, Refinding)
      && (if cfg.queries then Finds(s.store, s.creators[c].key, s.now, found) else found.None?)
      && s' == Move(s, c, Done(if found.Some? then Returned(found.value, false) else RateLimited))
    case Count(c, fails) =>
      && At(s, c, Counting)
      && var pair := PairFor(s.creators[c].key);
         var checked := cfg.limiter && cfg.metrics;
         s' == if checked && fails then Move(s, c, Creating(s.now + cfg.pendingTtl)).(skipped := s.skipped + multiset{pair})
               else if checked && |PendingFor(s.store, pair, s.now)| >= cfg.maxPending then Move(s, c, Done(RateLimited))
               else Move(s, c, Creating(s.now + cfg.pendingTtl))
    case Store(c, id, after, result, announceFails) =>
      && c in s.creators && s.creators[c].phase.Creating?
      && RepoCreate(s.store, id, Fresh(s.creators[c]), s.now, after, result)
      && s' == Move(s, c, Done(Answer(id, result, announceFails))).(store := after)
    case Abort(c) => c in s.creators && Holding(s.creators[c].phase) && s' == Move(s, c, Done(StorageFailure))
    case Decide(m, changed) => !m.Create? && Mutates(s.store, m, s.now, changed) && s' == s.(store := changed)
    case Tick(d) => s' == s.(now := s.now + d)
  }

  ghost predicate Next(cfg: Config, s: State, s': State) {
    exists a :: Step(cfg, s, a, s')
  }

  ghost predicate NextAt(cfg: Config, tr: seq<State>, i: nat)
    requires i + 1 < |tr|
  {
    Next(cfg, tr[i], tr[i + 1])
  }

  /** The service starts with no call under way, at most one live approval per key and no pair over
      its limit. */
  ghost predicate Init(cfg: Config, s: State) {
    && s.creators == map[] && s.lock.None? && s.skipped == multiset{}
    && Unique(s.store, s.now)
    && forall p: Pair :: |PendingFor(s.store, p, s.now)| <= cfg.maxPending
  }

  ghost predicate Run(cfg: Config, tr: seq<State>) {
    |tr| > 0 && Init(cfg, tr[0]) && forall i: nat :: i + 1 < |tr| ==> NextAt(cfg, tr, i)
  }

  // ---------------------------------------------------------------- invariants

  ghost predicate Unique(st: Approvals.Store, now: Time) {
    forall x, y :: x in st && y in st && st[x].key == st[y].key && Live(st[x], now) && Live(st[y], now) ==> x == y
  }

  ghost predicate Exclusive(s: State) {
    && (forall c :: c in s.creators ==> (Holding(s.creators[c].phase) <==> s.lock == Some(c)))
    && (s.lock.Some? ==> s.lock.value in s.creators)
  }

  /** Each pair stays within the limit plus one for every count query that failed for it, and a
      caller about to create still has room. */
  ghost predicate Bounded(cfg: Config, s: State) {
    && (forall p: Pair :: |PendingFor(s.store, p, s.now)| <= cfg.maxPending + s.skipped[p])
    && (forall c :: c in s.creators && s.creators[c].phase.Creating? ==>
          var p := PairFor(s.creators[c].key);
          |PendingFor(s.store, p, s.now)| < cfg.maxPending + s.skipped[p])
  }

  lemma {:induction false} SubsetIsSmaller(a: set<string>, b: set<string>)
    requires a <= b
    ensures |a| <= |b|
  {
    if a != {} {
      var x :| x in a;
      SubsetIsSmaller(a - {x}, b - {x});
    }
  }

  /** Decisions and the clock only ever remove pending approvals. */
  lemma PendingShrinks(st: Approvals.Store, m: Mutation, now: Time, st': Approvals.Store, p: Pair)
    requires !m.Create? && Mutates(st, m, now, st')
    ensures |PendingFor(st', p, now)| <= |PendingFor(st, p, now)|
  {
    SubsetIsSmaller(PendingFor(st', p, now), PendingFor(st, p, now));
  }

  lemma PendingAges(st: Approvals.Store, now: Time, d: nat, p: Pair)
    ensures |PendingFor(st, p, now + d)| <= |PendingFor(st, p, now)|
  {
    SubsetIsSmaller(PendingFor(st, p, now + d), PendingFor(st, p, now));
  }

  lemma PendingGrowsByOne(st: Approvals.Store, id: string, a: Approval, now: Time, st': Approvals.Store, result: string, p: Pair)
    requires RepoCreate(st, id, a, now, st', result)
    ensures |PendingFor(st', p, now)| <= |PendingFor(st, p, now)| + if p == PairFor(a.key) then 1 else 0
  {
    var before, after := PendingFor(st, p, now), PendingFor(st', p, now);
    forall x | x in after && x != id ensures x in before {
      assert x in st' - {id};
    }
    if p == PairFor(a.key) {
      SubsetIsSmaller(after, before + {id});
    } else {
      SubsetIsSmaller(after, before);
    }
  }

  lemma CreateKeepsUnique(st: Approvals.Store, id: string, a: Approval, now: Time, st': Approvals.Store, result: string)
    requires Unique(st, now) && RepoCreate(st, id, a, now, st', result)
    ensures Unique(st', now)
  {
    forall x | x in st' && x != id ensures x in st && (Live(st'[x], now) ==> st'[x] == st[x]) {
      assert x in st' - {id};
    }
  }

  lemma StepKeepsUnique(cfg: Config, s: State, a: Action, s': State)
    requires Unique(s.store, s.now) && Step(cfg, s, a, s')
    ensures Unique(s'.store, s'.now)
  {
    if a.Store? {
      CreateKeepsUnique(s.store, a.id, Fresh(s.creators[a.caller]), s.now, a.after, a.result);
    }
  }

  lemma StepKeepsExclusive(cfg: Config, s: State, a: Action, s': State)
    requires Exclusive(s) && Step(cfg, s, a, s')
    ensures Exclusive(s')
  {
  }

  lemma StoreKeepsBounded(cfg: Config, s: State, a: Action, s': State)
    requires Exclusive(s) && Bounded(cfg, s) && Step(cfg, s, a, s') && a.Store?
    ensures Bounded(cfg, s')
  {
    var c := s.creators[a.caller];
    forall p: Pair ensures |PendingFor(s'.store, p, s'.now)| <= cfg.maxPending + s'.skipped[p] {
      PendingGrowsByOne(s.store, a.id, Fresh(c), s.now, a.after, a.result, p);
    }
  }

  /** A step that adds no approval keeps the bound, unless it lets a caller through to create. */
  lemma BoundFramed(cfg: Config, s: State, s': State)
    requires Bounded(cfg, s)
    requires forall p: Pair :: |PendingFor(s'.store, p, s'.now)| <= |PendingFor(s.store, p, s.now)| && s.skipped[p] <= s'.skipped[p]
    requires forall c :: c in s'.creators && s'.creators[c].phase.Creating? ==> c in s.creators && s.creators[c] == s'.creators[c]
    ensures Bounded(cfg, s')
  {
  }

  lemma CountKeepsBounded(cfg: Config, s: State, a: Action, s': State)
    requires cfg.limiter && cfg.metrics
    requires Exclusive(s) && Bounded(cfg, s) && Step(cfg, s, a, s') && a.Count?
    ensures Bounded(cfg, s')
  {
    assert s'.store == s.store && s'.now == s.now;
    var pair := PairFor(s.creators[a.caller].key);
    assert |PendingFor(s.store, pair, s.now)| <= cfg.maxPending + s.skipped[pair];
  }

  lemma DecideKeepsBounded(cfg: Config, s: State, a: Action, s': State)
    requires Bounded(cfg, s) && Step(cfg, s, a, s') && (a.Decide? || a.Tick?)
    ensures Bounded(cfg, s')
  {
    forall p: Pair ensures |PendingFor(s'.store, p, s'.now)| <= |PendingFor(s.store, p, s.now)| {
      if a.Decide? {
        PendingShrinks(s.store, a.decision, s.now, a.changed, p);
      } else {
        PendingAges(s.store, s.now, a.duration, p);
      }
    }
    BoundFramed(cfg, s, s');
  }

  lemma StepKeepsBounded(cfg: Config, s: State, a: Action, s': State)
    requires cfg.limiter && cfg.metrics
    requires Exclusive(s) && Bounded(cfg, s) && Step(cfg, s, a, s')
    ensures Bounded(cfg, s')
  {
    if a.Store? {
      StoreKeepsBounded(cfg, s, a, s');
    } else if a.Count? {
      CountKeepsBounded(cfg, s, a, s');
    } else if a.Decide? || a.Tick? {
      DecideKeepsBounded(cfg, s, a, s');
    } else {
      assert s'.store == s.store && s'.now == s.now && s'.skipped == s.skipped;
      BoundFramed(cfg, s, s');
    }
  }

  lemma {:induction false} Reachable(cfg: Config, tr: seq<State>, j: nat)
    requires Run(cfg, tr) && j < |tr|
    ensures Exclusive(tr[j]) && Unique(tr[j].store, tr[j].now)
    ensures cfg.limiter && cfg.metrics ==> Bounded(cfg, tr[j])
  {
    if j > 0 {
      Reachable(cfg, tr, j - 1);
      assert NextAt(cfg, tr, j - 1);
      var a :| Step(cfg, tr[j - 1], a, tr[j]);
      StepKeepsExclusive(cfg, tr[j - 1], a, tr[j]);
      StepKeepsUnique(cfg, tr[j - 1], a, tr[j]);
      if cfg.limiter && cfg.metrics {
        StepKeepsBounded(cfg, tr[j - 1], a, tr[j]);
      }
    }
  }

  // ---------------------------------------------------------------- theorems

  /** Over every interleaving a pair's pending count stays within the limit, with one more for each
      failed count query; without such failures the limit itself holds. */
  lemma PendingIsBounded(cfg: Config, tr: seq<State>, j: nat, p: Pair)
    requires Run(cfg, tr) && j < |tr| && cfg.limiter && cfg.metrics
    ensures |PendingFor(tr[j].store, p, tr[j].now)| <= cfg.maxPending + tr[j].skipped[p]
    ensures tr[j].skipped == multiset{} ==> |PendingFor(tr[j].store, p, tr[j].now)| <= cfg.maxPending
  {
    Reachable(cfg, tr, j);
  }

  ghost predicate LiveAt(s: State, x: string, key: Key) {
    x in s.store && s.store[x].key == key && Live(s.store[x], s.now)
  }

  ghost predicate LiveThroughout(tr: seq<State>, i: nat, j: nat, x: string, key: Key)
    requires i <= j < |tr|
  {
    forall k :: i <= k <= j ==> LiveAt(tr[k], x, key)
  }

  /** Before its answer the call is waiting or looking; its answer is x. */
  ghost predicate Converges(s: State, c: nat, x: string, key: Key) {
    && c in s.creators && s.creators[c].key == key
    && (s.creators[c].phase in {Waiting, Finding, Done(Returned(x, false)), Done(StorageFailure)})
  }

  lemma StepConverges(cfg: Config, s: State, a: Action, s': State, c: nat, x: string, key: Key)
    requires cfg.queries && Unique(s.store, s.now) && Step(cfg, s, a, s')
    requires Converges(s, c, x, key) && LiveAt(s, x, key)
    ensures Converges(s', c, x, key)
  {
  }

  /** A request that is made while an approval with its key is live throughout the call gets that
      very approval and takes no slot of its own; it is never refused by the rate limit. */
  lemma {:induction false} LiveApprovalIsReturned(cfg: Config, tr: seq<State>, i: nat, j: nat, c: nat, x: string, key: Key)
    requires Run(cfg, tr) && i <= j < |tr| && cfg.queries
    requires c in tr[i].creators && tr[i].creators[c].key == key && tr[i].creators[c].phase.Waiting?
    requires LiveThroughout(tr, i, j, x, key)
    ensures Converges(tr[j], c, x, key)
    decreases j
  {
    if i < j {
      LiveApprovalIsReturned(cfg, tr, i, j - 1, c, x, key);
      Reachable(cfg, tr, j - 1);
      assert LiveAt(tr[j - 1], x, key);
      assert NextAt(cfg, tr, j - 1);
      var a :| Step(cfg, tr[j - 1], a, tr[j]);
      StepConverges(cfg, tr[j - 1], a, tr[j], c, x, key);
    }
  }

  ghost predicate Answers(s: State, c: nat, key: Key, x: string) {
    c in s.creators && s.creators[c].key == key && s.creators[c].phase.Done? && s.creators[c].phase.outcome.Returned?
    && s.creators[c].phase.outcome.id == x
  }

  lemma OthersWait(cfg: Config, s: State, a: Action, s': State, first: nat, second: nat, key: Key, x: string)
    requires Exclusive(s) && Step(cfg, s, a, s') && first != second
    requires !Answers(s, first, key, x) && Answers(s', first, key, x)
    requires second in s.creators && !s.creators[second].phase.Done?
    ensures s'.creators[second] == s.creators[second] && s.creators[second].phase.Waiting?
  {
  }

  /** Identical concurrent requests agree: when the first of two calls with the same key answers
      with x, and x stays pending, the second call also answers with x. */
  lemma IdenticalRequestsAgree(cfg: Config, tr: seq<State>, k: nat, j: nat, first: nat, second: nat, x: string, key: Key)
    requires Run(cfg, tr) && k + 1 <= j < |tr| && cfg.queries && first != second
    requires !Answers(tr[k], first, key, x) && Answers(tr[k + 1], first, key, x)
    requires second in tr[k].creators && tr[k].creators[second].key == key && !tr[k].creators[second].phase.Done?
    requires LiveThroughout(tr, k + 1, j, x, key)
    requires second in tr[j].creators && tr[j].creators[second].phase.Done?
    ensures Answers(tr[j], second, key, x) || tr[j].creators[second].phase.outcome.StorageFailure?
  {
    Reachable(cfg, tr, k);
    assert NextAt(cfg, tr, k);
    var a :| Step(cfg, tr[k], a, tr[k + 1]);
    OthersWait(cfg, tr[k], a, tr[k + 1], first, second, key, x);
    LiveApprovalIsReturned(cfg, tr, k + 1, j, second, x, key);
  }

  // ---------------------------------------------------------------- one undisturbed call

  ghost predicate HasLive(st: Approvals.Store, key: Key, now: Time) {
    exists x :: x in st && st[x].key == key && Live(st[x], now)
  }

  /** The token bucket or the count refuses a creation. */
  predicate Refused(cfg: Config, st: Approvals.Store, key: Key, now: Time, allowed: bool, countFails: bool) {
    cfg.limiter && (!allowed || (cfg.metrics && !countFails && |PendingFor(st, PairFor(key), now)| >= cfg.maxPending))
  }

  /** The whole call while nothing else runs, against the repository object.  An existing live
      approval is returned and nothing is written; otherwise the call is refused exactly when the
      token bucket or the count says so, and a refusal writes nothing either; otherwise the new
      approval is stored, and returned unless its announcement fails. */
  method CreatePendingApproval(repo: ToolApprovalRepository, cfg: Config, key: Key, session: Option<string>,
                               id: string, now: Time, allowed: bool, countFails: bool, announceFails: bool) returns (outcome: Outcome)
    requires id !in repo.approvals
    modifies repo
    ensures cfg.queries && HasLive(old(repo.approvals), key, now) ==>
              outcome.Returned? && !outcome.isNew && repo.approvals == old(repo.approvals)
    ensures outcome.RateLimited? <==>
              !(cfg.queries && HasLive(old(repo.approvals), key, now)) && Refused(cfg, old(repo.approvals), key, now, allowed, countFails)
    ensures outcome.RateLimited? ==> repo.approvals == old(repo.approvals)
    ensures outcome.Returned? && !outcome.isNew ==>
              outcome.id in old(repo.approvals) && old(repo.approvals)[outcome.id].key == key && Live(old(repo.approvals)[outcome.id], now)
    ensures !outcome.RateLimited? && !HasLive(old(repo.approvals), key, now) ==>
              && outcome == (if announceFails then StorageFailure else Returned(id, true))
              && RepoCreate(old(repo.approvals), id, Approval(key, session, Pending, None, false, now + cfg.pendingTtl), now, repo.approvals, id)
    ensures outcome.StorageFailure? || (outcome.Returned? && outcome.isNew) ==> !HasLive(old(repo.approvals), key, now)
  {
    if cfg.queries {
      var existing := repo.FindPendingByKey(key, now);
      if existing.Some? {
        return Returned(existing.value, false);
      }
    }
    if cfg.limiter && !allowed {
      // The second look-up of this branch (Refind above) finds nothing while nothing else runs.
      return RateLimited;
    }
    if cfg.limiter && cfg.metrics {
      var count := repo.CountPendingByPrincipalAndAgent(key.principal, key.agent, now);
      if !countFails && count >= cfg.maxPending {
        return RateLimited;
      }
    }
    var result := repo.Create(id, Approval(key, session, Pending, None, false, now + cfg.pendingTtl), now);
    outcome := Answer(id, result, announceFails);
  }
}
