/** The public key cache of the CIMD key service: readers, rebuild flights, invalidations and
    repository mutations interleave step by step.  Each critical section of the source is one
    atomic step; everything between two sections may be interleaved with any other step.

    Fields called seen, head or invalidations record where a value came from.  No branch
    consults them. */
module KeyCache {
  import opened Prelude
  import opened SigningKeys

  const CACHE_TTL: Time := 45_000
  const ZERO_TIME: Time := 0

  type JwkSet = set<PublicJwk>

  /** A committed state of the repository, with what a fresh build of its CIMD keys publishes.
      Versions rise strictly with every mutation. */
  datatype Commit = Commit(version: int, table: KeyTable, build: Option<JwkSet>)

  /** The four fields that the source guards with its mutex. */
  datatype Cache = Cache(jwks: Option<JwkSet>, expiresAt: Time, version: int, generation: nat)

  datatype FlightResult = Built(jwks: JwkSet) | Invalidated | Failed

  datatype FlightPhase =
    | Starting                                // before the keys are listed
    | Listed(jwks: JwkSet, listed: nat)       // set built, version not yet confirmed
    | Confirmed(jwks: JwkSet)                 // version confirmed, not yet published
    | Over(result: FlightResult)

  datatype Flight = Flight(generation: nat, version: int, seen: nat, phase: FlightPhase)

  /** How many commits and invalidations there were at the last visit of the loop head. */
  datatype Head = Head(commits: nat, invalidations: nat)

  datatype ReaderPhase =
    | AtHead
    | Versioned(version: int, seen: nat)      // version read, cache not yet tried
    | Missed(version: int, seen: nat)         // fast path missed, write lock not yet taken
    | Waiting(version: int, seen: nat, generation: nat, flight: nat)
    | Received(version: int, seen: nat, generation: nat, result: FlightResult)
    | Returned(jwks: JwkSet, seen: nat)
    | Errored

  datatype Reader = Reader(head: Head, phase: ReaderPhase)

  datatype State = State(
    history: seq<Commit>,
    now: Time,
    cache: Cache,
    cacheSeen: int,
    invalidations: nat,
    flights: map<nat, Flight>,
    inflight: map<nat, nat>,                  // the single-flight table: generation to flight
    readers: map<nat, Reader>)

  datatype Action =
    | Tick(t: Time)
    | Mutate(commit: Commit)
    | Invalidate
    | Call(r: nat)
    | ReadVersion(r: nat)
    | FastPath(r: nat, t: Time)
    | LockedPath(r: nat, flight: nat)
    | Receive(r: nat)
    | Decide(r: nat)
    | GiveUp(r: nat)
    | ListKeys(f: nat)
    | ConfirmVersion(f: nat)
    | Publish(f: nat)
    | FlightFails(f: nat)
    | Land(f: nat)

  function Last(s: State): Commit
    requires |s.history| > 0
  {
    s.history[|s.history| - 1]
  }

  ghost predicate Faithful(c: Commit) {
    WellFormed(c.table) && c.build == PublicSet(DomainKeys(c.table, CimdClientAuthentication))
  }

  // ---------------------------------------------------------------- critical sections

  predicate Hit(c: Cache, version: int, t: Time) {
    c.jwks.Some? && c.version == version && t < c.expiresAt
  }

  datatype LockedOutcome = Retry | Serve(jwks: JwkSet) | Join(generation: nat)

  /** The section under the write lock: step back when the cache is already ahead, adopt a newer
      version under a new generation, serve a live set, or join the flight of the generation. */
  function Locked(c: Cache, version: int, now: Time): (Cache, LockedOutcome) {
    if c.version > version then (c, Retry)
    else
      var c1 := if c.version != version then c.(jwks := None, version := version, generation := c.generation + 1) else c;
      if c1.jwks.Some? && now < c1.expiresAt then (c1, Serve(c1.jwks.value)) else (c1, Join(c1.generation))
  }

  function AfterPublish(c: Cache, generation: nat, jwks: JwkSet, now: Time): (Cache, FlightResult) {
    if c.generation != generation then (c, Invalidated)
    else (c.(jwks := Some(jwks), expiresAt := now + CACHE_TTL), Built(jwks))
  }

  function Cleared(c: Cache): Cache {
    c.(jwks := None, expiresAt := ZERO_TIME, generation := c.generation + 1)
  }

  // ---------------------------------------------------------------- steps

  function SetReader(s: State, r: nat, phase: ReaderPhase): State
    requires r in s.readers
  {
    s.(readers := s.readers[r := s.readers[r].(phase := phase)])
  }

  /** Back to the loop head: the source's continue. */
  function Again(s: State, r: nat): State
    requires r in s.readers
  {
    s.(readers := s.readers[r := Reader(Head(|s.history|, s.invalidations), AtHead)])
  }

  function SetFlight(s: State, f: nat, phase: FlightPhase): State
    requires f in s.flights
  {
    s.(flights := s.flights[f := s.flights[f].(phase := phase)])
  }

  ghost predicate LockedStep(s: State, r: nat, flight: nat, s': State)
    requires r in s.readers && s.readers[r].phase.Missed?
  {
    var Missed(version, seen) := s.readers[r].phase;
    var (c, outcome) := Locked(s.cache, version, s.now);
    match outcome
    case Retry => s' == Again(s, r)
    case Serve(jwks) => s' == SetReader(s.(cache := c, cacheSeen := seen), r, Returned(jwks, seen))
    case Join(g) =>
      var s1 := s.(cache := c, cacheSeen := seen);
      if g in s.inflight then s' == SetReader(s1, r, Waiting(version, seen, g, s.inflight[g]))
      else
        && flight !in s.flights
        && s' == SetReader(s1.(flights := s.flights[flight := Flight(g, version, seen, Starting)], inflight := s.inflight[g := flight]),
                           r, Waiting(version, seen, g, flight))
  }

  ghost predicate Step(s: State, a: Action, s': State)
    requires |s.history| > 0
  {
    match a
    case Tick(t) => t >= s.now && s' == s.(now := t)
    case Mutate(c) =>
      && c.version > Last(s).version && Faithful(c) && IdsRetired(Last(s).table, c.table)
      && s' == s.(history := s.history + [c])
    case Invalidate => s' == s.(cache := Cleared(s.cache), invalidations := s.invalidations + 1)
    case Call(r) =>
      && r !in s.readers
      && s' == s.(readers := s.readers[r := Reader(Head(|s.history|, s.invalidations), AtHead)])
    case ReadVersion(r) =>
      && r in s.readers && s.readers[r].phase.AtHead?
      && s' == SetReader(s, r, Versioned(Last(s).version, |s.history| - 1))
    case FastPath(r, t) =>
      && r in s.readers && s.readers[r].phase.Versioned? && t <= s.now
      && var Versioned(version, seen) := s.readers[r].phase;
         s' == SetReader(s, r, if Hit(s.cache, version, t) then Returned(s.cache.jwks.value, seen) else Missed(version, seen))
    case LockedPath(r, flight) => r in s.readers && s.readers[r].phase.Missed? && LockedStep(s, r, flight, s')
    case Receive(r) =>
      && r in s.readers && s.readers[r].phase.Waiting?
      && var Waiting(version, seen, g, f) := s.readers[r].phase;
         && f in s.flights && s.flights[f].phase.Over? && !(g in s.inflight && s.inflight[g] == f)
         && s' == SetReader(s, r, Received(version, seen, g, s.flights[f].phase.result))
    case Decide(r) =>
      && r in s.readers && s.readers[r].phase.Received?
      && var Received(version, seen, g, result) := s.readers[r].phase;
         if s.cache.generation != g || result.Invalidated? then s' == Again(s, r)
         else s' == SetReader(s, r, if result.Built? then Returned(result.jwks, seen) else Errored)
    case GiveUp(r) =>
      && r in s.readers && (s.readers[r].phase.AtHead? || s.readers[r].phase.Waiting?)
      && s' == SetReader(s, r, Errored)
    case ListKeys(f) =>
      && f in s.flights && s.flights[f].phase.Starting?
      && s' == SetFlight(s, f,
                 if Last(s).build.Some? then Listed(Last(s).build.value, |s.history| - 1) else Over(Failed))
    case ConfirmVersion(f) =>
      && f in s.flights && s.flights[f].phase.Listed?
      && s' == SetFlight(s, f,
                 if Last(s).version != s.flights[f].version then Over(Invalidated) else Confirmed(s.flights[f].phase.jwks))
    case Publish(f) =>
      && f in s.flights && s.flights[f].phase.Confirmed?
      && var (c, result) := AfterPublish(s.cache, s.flights[f].generation, s.flights[f].phase.jwks, s.now);
         s' == SetFlight(s.(cache := c), f, Over(result))
    case FlightFails(f) =>
      && f in s.flights && (s.flights[f].phase.Starting? || s.flights[f].phase.Listed?)
      && s' == SetFlight(s, f, Over(Failed))
    case Land(f) =>
      && f in s.flights && s.flights[f].phase.Over?
      && s.flights[f].generation in s.inflight && s.inflight[s.flights[f].generation] == f
      && s' == s.(inflight := s.inflight - {s.flights[f].generation})
  }

  ghost predicate Init(s: State) {
    && |s.history| == 1 && s.history[0].version >= 0 && Faithful(s.history[0])
    && s.cache == Cache(None, ZERO_TIME, 0, 0) && s.cacheSeen == -1 && s.invalidations == 0
    && s.flights == map[] && s.inflight == map[] && s.readers == map[]
  }

  ghost predicate Next(s: State, s': State) {
    |s.history| > 0 && exists a :: Step(s, a, s')
  }

  ghost predicate NextAt(tr: seq<State>, i: nat)
    requires i + 1 < |tr|
  {
    Next(tr[i], tr[i + 1])
  }

  ghost predicate Run(tr: seq<State>) {
    && |tr| > 0 && Init(tr[0])
    && forall i: nat :: i + 1 < |tr| ==> NextAt(tr, i)
  }

  // ---------------------------------------------------------------- the invariant

  ghost predicate HistoryInv(h: seq<Commit>) {
    && |h| > 0 && h[0].version >= 0
    && (forall i, j :: 0 <= i < j < |h| ==> h[i].version < h[j].version)
  }

  /** seen is the position in the history of the commit that carries this version. */
  predicate At(h: seq<Commit>, seen: int, version: int) {
    0 <= seen < |h| && h[seen].version == version
  }

  /** The cached set is the fresh build of the commit at the cached version, and the cached version
      never passes the repository. */
  ghost predicate CacheInv(h: seq<Commit>, c: Cache, seen: int) {
    && |h| > 0 && -1 <= seen < |h| && c.version <= h[|h| - 1].version
    && (seen == -1 ==> c.version == 0 && c.jwks.None?)
    && (seen >= 0 ==> At(h, seen, c.version))
    && (c.jwks.Some? ==> seen >= 0 && h[seen].build == c.jwks)
  }

  ghost predicate ResultInv(h: seq<Commit>, current: nat, generation: nat, seen: nat, result: FlightResult)
    requires seen < |h|
  {
    match result
    case Built(jwks) => h[seen].build == Some(jwks)
    case Invalidated => generation == current ==> seen < |h| - 1
    case Failed => true
  }

  /** A generation determines its version. */
  ghost predicate FlightInv(h: seq<Commit>, current: nat, cacheSeen: int, f: Flight) {
    && At(h, f.seen, f.version) && f.generation <= current
    && (f.generation == current ==> f.seen == cacheSeen)
    && match f.phase
       case Starting => true
       case Listed(jwks, listed) => f.seen <= listed < |h| && h[listed].build == Some(jwks)
       case Confirmed(jwks) => h[f.seen].build == Some(jwks)
       case Over(result) => ResultInv(h, current, f.generation, f.seen, result)
  }

  ghost predicate ReaderInv(h: seq<Commit>, current: nat, flights: map<nat, Flight>, r: Reader) {
    && 1 <= r.head.commits <= |h|
    && match r.phase
       case AtHead => true
       case Errored => true
       case Versioned(version, seen) => At(h, seen, version) && r.head.commits - 1 <= seen
       case Missed(version, seen) => At(h, seen, version) && r.head.commits - 1 <= seen
       case Waiting(version, seen, g, f) =>
         && At(h, seen, version) && r.head.commits - 1 <= seen && g <= current
         && f in flights && flights[f].generation == g && flights[f].seen == seen
       case Received(version, seen, g, result) =>
         && At(h, seen, version) && r.head.commits - 1 <= seen && g <= current
         && ResultInv(h, current, g, seen, result)
       case Returned(jwks, seen) =>
         r.head.commits - 1 <= seen < |h| && h[seen].build == Some(jwks)
  }

  ghost predicate FlightsInv(h: seq<Commit>, current: nat, cacheSeen: int, flights: map<nat, Flight>, inflight: map<nat, nat>) {
    && (forall f :: f in flights ==> FlightInv(h, current, cacheSeen, flights[f]))
    && (forall g :: g in inflight ==> inflight[g] in flights && flights[inflight[g]].generation == g)
  }

  ghost predicate ReadersInv(h: seq<Commit>, current: nat, flights: map<nat, Flight>, readers: map<nat, Reader>) {
    forall r :: r in readers ==> ReaderInv(h, current, flights, readers[r])
  }

  ghost predicate Inv(s: State) {
    && HistoryInv(s.history) && CacheInv(s.history, s.cache, s.cacheSeen)
    && FlightsInv(s.history, s.cache.generation, s.cacheSeen, s.flights, s.inflight)
    && ReadersInv(s.history, s.cache.generation, s.flights, s.readers)
  }

  lemma AtUnique(h: seq<Commit>, i: int, j: int, v: int, w: int)
    requires HistoryInv(h) && At(h, i, v) && At(h, j, w)
    ensures v == w <==> i == j
    ensures v < w <==> i < j
  {
  }

  // Frame lemmas: one reader, one flight, the history or the generation changes.

  lemma ReaderUpdated(h: seq<Commit>, current: nat, flights: map<nat, Flight>, readers: map<nat, Reader>, r: nat, x: Reader)
    requires ReadersInv(h, current, flights, readers) && ReaderInv(h, current, flights, x)
    ensures ReadersInv(h, current, flights, readers[r := x])
  {
  }

  lemma FlightUpdated(s: State, f: nat, x: Flight)
    requires Inv(s) && (f in s.flights ==> x.generation == s.flights[f].generation && x.seen == s.flights[f].seen)
    requires FlightInv(s.history, s.cache.generation, s.cacheSeen, x)
    ensures FlightsInv(s.history, s.cache.generation, s.cacheSeen, s.flights[f := x], s.inflight)
    ensures ReadersInv(s.history, s.cache.generation, s.flights[f := x], s.readers)
  {
    forall r | r in s.readers ensures ReaderInv(s.history, s.cache.generation, s.flights[f := x], s.readers[r]) {
      assert ReaderInv(s.history, s.cache.generation, s.flights, s.readers[r]);
    }
  }

  lemma HistoryExtended(s: State, c: Commit)
    requires Inv(s) && c.version > Last(s).version
    ensures Inv(s.(history := s.history + [c]))
  {
    var h := s.history + [c];
    assert forall i :: 0 <= i < |s.history| ==> h[i] == s.history[i];
    forall f | f in s.flights ensures FlightInv(h, s.cache.generation, s.cacheSeen, s.flights[f]) {
      assert FlightInv(s.history, s.cache.generation, s.cacheSeen, s.flights[f]);
    }
    forall r | r in s.readers ensures ReaderInv(h, s.cache.generation, s.flights, s.readers[r]) {
      assert ReaderInv(s.history, s.cache.generation, s.flights, s.readers[r]);
    }
  }

  lemma GenerationRaised(s: State, seen: int)
    requires Inv(s)
    ensures FlightsInv(s.history, s.cache.generation + 1, seen, s.flights, s.inflight)
    ensures ReadersInv(s.history, s.cache.generation + 1, s.flights, s.readers)
  {
    forall f | f in s.flights ensures FlightInv(s.history, s.cache.generation + 1, seen, s.flights[f]) {
      assert FlightInv(s.history, s.cache.generation, s.cacheSeen, s.flights[f]);
    }
    forall r | r in s.readers ensures ReaderInv(s.history, s.cache.generation + 1, s.flights, s.readers[r]) {
      assert ReaderInv(s.history, s.cache.generation, s.flights, s.readers[r]);
    }
  }

  /** The write-lock section moves the cache from one consistent state to another. */
  lemma LockedKeepsCache(s: State, r: nat, s1: State)
    requires Inv(s) && r in s.readers && s.readers[r].phase.Missed? && s.cache.version <= s.readers[r].phase.version
    requires s1 == s.(cache := Locked(s.cache, s.readers[r].phase.version, s.now).0, cacheSeen := s.readers[r].phase.seen)
    ensures Inv(s1)
  {
    var Missed(version, seen) := s.readers[r].phase;
    assert ReaderInv(s.history, s.cache.generation, s.flights, s.readers[r]);
    if s.cacheSeen >= 0 { AtUnique(s.history, s.cacheSeen, seen, s.cache.version, version); }
    AtUnique(s.history, seen, |s.history| - 1, version, Last(s).version);
    if s.cache.version != version {
      GenerationRaised(s, seen);
    } else if s.cacheSeen == -1 {
      forall f | f in s.flights ensures FlightInv(s.history, s.cache.generation, seen, s.flights[f]) {
        assert FlightInv(s.history, s.cache.generation, s.cacheSeen, s.flights[f]);
      }
    }
  }

  lemma LockedKeepsInv(s: State, r: nat, flight: nat, s': State)
    requires Inv(s) && r in s.readers && s.readers[r].phase.Missed? && LockedStep(s, r, flight, s')
    ensures Inv(s')
  {
    var Missed(version, seen) := s.readers[r].phase;
    assert ReaderInv(s.history, s.cache.generation, s.flights, s.readers[r]);
    if s.cache.version > version {
      ReaderUpdated(s.history, s.cache.generation, s.flights, s.readers, r, s'.readers[r]);
    } else {
      var s1 := s.(cache := Locked(s.cache, version, s.now).0, cacheSeen := seen);
      LockedKeepsCache(s, r, s1);
      JoinKeepsInv(s1, r, flight, s');
    }
  }

  lemma JoinKeepsInv(s: State, r: nat, flight: nat, s': State)
    requires Inv(s) && r in s.readers && s.readers[r].phase.Missed?
    requires s.cache.version == s.readers[r].phase.version && s.cacheSeen == s.readers[r].phase.seen
    requires var Missed(version, seen) := s.readers[r].phase;
             if s.cache.jwks.Some? && s.now < s.cache.expiresAt then s' == SetReader(s, r, Returned(s.cache.jwks.value, seen))
             else if s.cache.generation in s.inflight
             then s' == SetReader(s, r, Waiting(version, seen, s.cache.generation, s.inflight[s.cache.generation]))
             else flight !in s.flights && s' == SetReader(
                    s.(flights := s.flights[flight := Flight(s.cache.generation, version, seen, Starting)],
                       inflight := s.inflight[s.cache.generation := flight]),
                    r, Waiting(version, seen, s.cache.generation, flight))
    ensures Inv(s')
  {
    assert ReaderInv(s.history, s.cache.generation, s.flights, s.readers[r]);
    if s'.flights != s.flights {
      FlightUpdated(s, flight, s'.flights[flight]);
    } else if s'.readers[r].phase.Waiting? {
      assert FlightInv(s.history, s.cache.generation, s.cacheSeen, s.flights[s.inflight[s.cache.generation]]);
    }
    ReaderUpdated(s.history, s.cache.generation, s'.flights, s.readers, r, s'.readers[r]);
  }

  lemma FlightKeepsInv(s: State, f: nat, a: Action, s': State)
    requires Inv(s) && f in s.flights && Step(s, a, s')
    requires a == ListKeys(f) || a == ConfirmVersion(f) || a == FlightFails(f)
    ensures Inv(s')
  {
    assert FlightInv(s.history, s.cache.generation, s.cacheSeen, s.flights[f]);
    AtUnique(s.history, s.flights[f].seen, |s.history| - 1, s.flights[f].version, Last(s).version);
    FlightUpdated(s, f, s'.flights[f]);
  }

  lemma PublishKeepsInv(s: State, f: nat, s': State)
    requires Inv(s) && Step(s, Publish(f), s')
    ensures Inv(s')
  {
    assert FlightInv(s.history, s.cache.generation, s.cacheSeen, s.flights[f]);
    FlightUpdated(s, f, s'.flights[f]);
  }

  lemma ReaderKeepsInv(s: State, r: nat, a: Action, s': State)
    requires Inv(s) && Step(s, a, s') && (a == ReadVersion(r) || a == Receive(r) || a == Decide(r) || a == GiveUp(r))
    ensures Inv(s')
  {
    assert ReaderInv(s.history, s.cache.generation, s.flights, s.readers[r]);
    if a == Receive(r) {
      assert FlightInv(s.history, s.cache.generation, s.cacheSeen, s.flights[s.readers[r].phase.flight]);
    }
    ReaderUpdated(s.history, s.cache.generation, s.flights, s.readers, r, s'.readers[r]);
  }

  lemma FastPathKeepsInv(s: State, r: nat, t: Time, s': State)
    requires Inv(s) && Step(s, FastPath(r, t), s')
    ensures Inv(s')
  {
    assert ReaderInv(s.history, s.cache.generation, s.flights, s.readers[r]);
    var Versioned(version, seen) := s.readers[r].phase;
    if s.cacheSeen >= 0 { AtUnique(s.history, s.cacheSeen, seen, s.cache.version, version); }
    ReaderUpdated(s.history, s.cache.generation, s.flights, s.readers, r, s'.readers[r]);
  }

  lemma EnvironmentKeepsInv(s: State, a: Action, s': State)
    requires Inv(s) && Step(s, a, s') && (a.Mutate? || a.Invalidate? || a.Call?)
    ensures Inv(s')
  {
    match a
    case Mutate(c) => HistoryExtended(s, c);
    case Invalidate => GenerationRaised(s, s.cacheSeen);
    case Call(r) => ReaderUpdated(s.history, s.cache.generation, s.flights, s.readers, r, s'.readers[r]);
  }

  lemma StepKeepsInv(s: State, a: Action, s': State)
    requires Inv(s) && Step(s, a, s')
    ensures Inv(s')
  {
    match a {
      case Mutate(_) => EnvironmentKeepsInv(s, a, s');
      case Invalidate => EnvironmentKeepsInv(s, a, s');
      case Call(_) => EnvironmentKeepsInv(s, a, s');
      case LockedPath(r, flight) => LockedKeepsInv(s, r, flight, s');
      case ReadVersion(r) => ReaderKeepsInv(s, r, a, s');
      case FastPath(r, t) => FastPathKeepsInv(s, r, t, s');
      case Receive(r) => ReaderKeepsInv(s, r, a, s');
      case Decide(r) => ReaderKeepsInv(s, r, a, s');
      case GiveUp(r) => ReaderKeepsInv(s, r, a, s');
      case ListKeys(f) => FlightKeepsInv(s, f, a, s');
      case ConfirmVersion(f) => FlightKeepsInv(s, f, a, s');
      case FlightFails(f) => FlightKeepsInv(s, f, a, s');
      case Publish(f) => PublishKeepsInv(s, f, s');
      case Tick(_) =>
      case Land(_) =>
    }
  }

  lemma {:induction false} ReachableInv(tr: seq<State>, j: nat)
    requires Run(tr) && j < |tr|
    ensures Inv(tr[j])
  {
    if j > 0 {
      ReachableInv(tr, j - 1);
      assert NextAt(tr, j - 1);
      var a :| Step(tr[j - 1], a, tr[j]);
      StepKeepsInv(tr[j - 1], a, tr[j]);
    }
  }
}
