/** Progress of the key cache: how often a call goes back to its loop head, and how many steps it
    takes in all. */
module KeyCacheProgress {
  import opened Prelude
  import opened SigningKeys
  import opened KeyCache
  import opened KeyCacheTheorems

  // ---------------------------------------------------------------- what happened since the loop head

  /** A reader that joined generation g: while that generation lasts the cache stands at the
      commit the reader saw, and once it is over there was a commit or an invalidation since the
      reader's last visit of the loop head. */
  ghost predicate Charged(s: State, head: Head, seen: nat, g: nat) {
    && (g == s.cache.generation ==> s.cacheSeen == seen)
    && (g != s.cache.generation ==> head.commits + head.invalidations < |s.history| + s.invalidations)
  }

  ghost predicate HeadInv(s: State, r: Reader) {
    && r.head.commits <= |s.history| && r.head.invalidations <= s.invalidations
    && match r.phase
       case Waiting(_, seen, g, _) => Charged(s, r.head, seen, g)
       case Received(_, seen, g, _) => Charged(s, r.head, seen, g)
       case _ => true
  }

  ghost predicate HeadsInv(s: State) {
    forall r :: r in s.readers ==> HeadInv(s, s.readers[r])
  }

  /** A generation ends by an invalidation or by the adoption of a newer commit. */
  ghost predicate Moves(s: State, s': State) {
    && |s.history| <= |s'.history| && s.invalidations <= s'.invalidations && s.cache.generation <= s'.cache.generation
    && (s'.cache.generation == s.cache.generation && s.cacheSeen >= 0 ==> s'.cacheSeen == s.cacheSeen)
    && (s'.cache.generation > s.cache.generation ==> s'.invalidations > s.invalidations || s.cacheSeen < s'.cacheSeen < |s'.history|)
  }

  lemma LockedMoves(s: State, r: nat, flight: nat, s': State)
    requires Inv(s) && r in s.readers && s.readers[r].phase.Missed? && LockedStep(s, r, flight, s')
    ensures Moves(s, s')
  {
    var Missed(version, seen) := s.readers[r].phase;
    assert ReaderInv(s.history, s.cache.generation, s.flights, s.readers[r]);
    if s.cacheSeen >= 0 {
      AtUnique(s.history, s.cacheSeen, seen, s.cache.version, version);
    }
  }

  lemma StepMoves(s: State, a: Action, s': State)
    requires Inv(s) && Step(s, a, s')
    ensures Moves(s, s')
  {
    if a.LockedPath? {
      LockedMoves(s, a.r, a.flight, s');
    }
  }

  lemma HeadFramed(s: State, s': State, r: Reader)
    requires Moves(s, s') && HeadInv(s, r) && ReaderInv(s.history, s.cache.generation, s.flights, r)
    ensures HeadInv(s', r)
  {
  }

  /** The reader that a step moves keeps its account. */
  lemma HeadMoved(s: State, a: Action, s': State, r: nat)
    requires |s.history| > 0 && Step(s, a, s') && r in s'.readers
    requires r in s.readers ==> s'.readers[r] != s.readers[r] && HeadInv(s, s.readers[r])
    ensures HeadInv(s', s'.readers[r])
  {
    if a.LockedPath? {
      LockedHead(s, r, a.flight, s');
    }
  }

  lemma LockedHead(s: State, r: nat, flight: nat, s': State)
    requires r in s.readers && s.readers[r].phase.Missed? && LockedStep(s, r, flight, s') && HeadInv(s, s.readers[r])
    ensures r in s'.readers && HeadInv(s', s'.readers[r])
  {
  }

  lemma StepKeepsHeads(s: State, a: Action, s': State)
    requires Inv(s) && HeadsInv(s) && Step(s, a, s')
    ensures HeadsInv(s')
  {
    StepMoves(s, a, s');
    forall r | r in s'.readers ensures HeadInv(s', s'.readers[r]) {
      if r in s.readers && s'.readers[r] == s.readers[r] {
        assert ReaderInv(s.history, s.cache.generation, s.flights, s.readers[r]);
        HeadFramed(s, s', s.readers[r]);
      } else {
        HeadMoved(s, a, s', r);
      }
    }
  }

  lemma {:induction false} ReachableHeads(tr: seq<State>, j: nat)
    requires Run(tr) && j < |tr|
    ensures HeadsInv(tr[j])
  {
    if j > 0 {
      ReachableHeads(tr, j - 1);
      ReachableInv(tr, j - 1);
      assert NextAt(tr, j - 1);
      var a :| Step(tr[j - 1], a, tr[j]);
      StepKeepsHeads(tr[j - 1], a, tr[j]);
    }
  }

  // ---------------------------------------------------------------- the retry bound

  ghost predicate Retries(s: State, s': State, r: nat) {
    r in s.readers && r in s'.readers && !s.readers[r].phase.AtHead? && s'.readers[r].phase.AtHead?
  }

  /** How often call r went back to the loop head in the first n steps. */
  ghost function RetryCount(tr: seq<State>, n: nat, r: nat): nat
    requires n < |tr|
  {
    if n == 0 then 0
    else RetryCount(tr, n - 1, r) + if Retries(tr[n - 1], tr[n], r) then 1 else 0
  }

  function Account(h: Head): nat {
    h.commits + h.invalidations
  }

  /** Since the last visit of the loop head there was a commit or an invalidation.  No other step
      touches the account taken there. */
  ghost predicate Paid(s: State, s': State, r: nat)
    requires r in s.readers && r in s'.readers
  {
    if Retries(s, s', r) then Account(s'.readers[r].head) > Account(s.readers[r].head)
    else s'.readers[r].head == s.readers[r].head
  }

  lemma RetryIsPaid(s: State, a: Action, s': State, r: nat)
    requires Inv(s) && HeadsInv(s) && Step(s, a, s') && r in s.readers
    ensures r in s'.readers && Paid(s, s', r)
  {
    assert HeadInv(s, s.readers[r]);
    if a == Decide(r) {
      DecideIsPaid(s, r, s');
    } else if a.LockedPath? && a.r == r {
      LockedRetryIsPaid(s, r, a.flight, s');
    } else {
      OthersDoNotRetry(s, a, s', r);
    }
  }

  lemma DecideIsPaid(s: State, r: nat, s': State)
    requires Inv(s) && r in s.readers && HeadInv(s, s.readers[r]) && Step(s, Decide(r), s')
    ensures r in s'.readers && Paid(s, s', r)
  {
    assert ReaderInv(s.history, s.cache.generation, s.flights, s.readers[r]);
  }

  lemma OthersDoNotRetry(s: State, a: Action, s': State, r: nat)
    requires |s.history| > 0 && Step(s, a, s') && r in s.readers && a != Decide(r) && !(a.LockedPath? && a.r == r)
    ensures r in s'.readers && s'.readers[r].head == s.readers[r].head && !Retries(s, s', r)
  {
  }

  lemma LockedRetryIsPaid(s: State, r: nat, flight: nat, s': State)
    requires Inv(s) && r in s.readers && s.readers[r].phase.Missed? && LockedStep(s, r, flight, s')
    requires HeadInv(s, s.readers[r])
    ensures r in s'.readers && Paid(s, s', r)
  {
    assert ReaderInv(s.history, s.cache.generation, s.flights, s.readers[r]);
    var Missed(version, seen) := s.readers[r].phase;
    AtUnique(s.history, seen, |s.history| - 1, version, Last(s).version);
  }

  lemma RunPays(tr: seq<State>, j: nat, r: nat)
    requires Run(tr) && j + 1 < |tr| && r in tr[j].readers
    ensures r in tr[j + 1].readers && Paid(tr[j], tr[j + 1], r)
  {
    ReachableInv(tr, j);
    ReachableHeads(tr, j);
    assert NextAt(tr, j);
    var a :| Step(tr[j], a, tr[j + 1]);
    RetryIsPaid(tr[j], a, tr[j + 1], r);
  }

  /** Call r enters the run in step k. */
  ghost predicate Starts(tr: seq<State>, k: nat, r: nat) {
    k + 1 < |tr| && r !in tr[k].readers && r in tr[k + 1].readers
  }

  lemma {:induction false} NothingBefore(tr: seq<State>, k: nat, r: nat)
    requires Run(tr) && k < |tr| && r !in tr[k].readers
    ensures RetryCount(tr, k, r) == 0 && ServedCount(tr, k, r) == 0
  {
    if k > 0 {
      RunAdvances(tr, k - 1);
      NothingBefore(tr, k - 1, r);
    }
  }

  lemma StartedAtHead(tr: seq<State>, k: nat, r: nat)
    requires Run(tr) && Starts(tr, k, r)
    ensures |tr[k].history| > 0 && tr[k + 1].readers[r] == Reader(Head(|tr[k].history|, tr[k].invalidations), AtHead)
  {
    assert NextAt(tr, k);
    CallsStartAtHead(tr[k], tr[k + 1], r);
  }

  lemma CallsStartAtHead(s: State, s': State, r: nat)
    requires Next(s, s') && r !in s.readers && r in s'.readers
    ensures s'.readers[r] == Reader(Head(|s.history|, s.invalidations), AtHead)
  {
    var a :| Step(s, a, s');
  }

  lemma {:induction false} RetriesCharged(tr: seq<State>, k: nat, n: nat, r: nat)
    requires Run(tr) && Starts(tr, k, r) && k < n < |tr|
    ensures r in tr[n].readers
    ensures RetryCount(tr, n, r) + |tr[k].history| + tr[k].invalidations <= Account(tr[n].readers[r].head)
    decreases n
  {
    if n == k + 1 {
      NothingBefore(tr, k, r);
      StartedAtHead(tr, k, r);
    } else {
      RetriesCharged(tr, k, n - 1, r);
      RunPays(tr, n - 1, r);
    }
  }

  /** A call goes round its loop again at most once for every commit and every invalidation that
      happens during the call; undisturbed, it never does. */
  lemma RetryBound(tr: seq<State>, k: nat, n: nat, r: nat)
    requires Run(tr) && Starts(tr, k, r) && k < n < |tr|
    ensures RetryCount(tr, n, r) <= (|tr[n].history| - |tr[k].history|) + (tr[n].invalidations - tr[k].invalidations)
  {
    RetriesCharged(tr, k, n, r);
    ReachableHeads(tr, n);
    assert HeadInv(tr[n], tr[n].readers[r]);
  }

  // ---------------------------------------------------------------- no call is stuck

  lemma {:induction false} FreshId(taken: set<nat>) returns (n: nat)
    ensures forall m :: m in taken ==> m < n
  {
    if taken == {} {
      n := 0;
    } else {
      var m :| m in taken;
      n := FreshId(taken - {m});
      assert forall k :: k in taken ==> k == m || k in taken - {m};
      if n <= m { n := m + 1; }
    }
  }

  /** The step that moves call r on, or moves on the flight that it waits for. */
  ghost predicate Serves(s: State, a: Action, r: nat)
    requires r in s.readers
  {
    match a
    case ReadVersion(q) => q == r
    case FastPath(q, _) => q == r
    case LockedPath(q, _) => q == r
    case Receive(q) => q == r
    case Decide(q) => q == r
    case ListKeys(f) => s.readers[r].phase.Waiting? && s.readers[r].phase.flight == f
    case ConfirmVersion(f) => s.readers[r].phase.Waiting? && s.readers[r].phase.flight == f
    case Publish(f) => s.readers[r].phase.Waiting? && s.readers[r].phase.flight == f
    case Land(f) => s.readers[r].phase.Waiting? && s.readers[r].phase.flight == f
    case _ => false
  }

  /** In every reachable state an unfinished call can be served without any failure or outside
      help. */
  lemma NoCallIsStuck(s: State, r: nat) returns (a: Action, s': State)
    requires Inv(s) && r in s.readers && !s.readers[r].phase.Returned? && !s.readers[r].phase.Errored?
    ensures Step(s, a, s') && Serves(s, a, r)
  {
    assert ReaderInv(s.history, s.cache.generation, s.flights, s.readers[r]);
    match s.readers[r].phase
    case AtHead =>
      a, s' := ReadVersion(r), SetReader(s, r, Versioned(Last(s).version, |s.history| - 1));
    case Versioned(version, seen) =>
      a := FastPath(r, s.now);
      s' := SetReader(s, r, if Hit(s.cache, version, s.now) then Returned(s.cache.jwks.value, seen) else Missed(version, seen));
    case Missed(version, seen) =>
      var flight := FreshId(s.flights.Keys);
      a, s' := LockedPath(r, flight), LockedSuccessor(s, r, flight);
    case Received(_, seen, g, result) =>
      a := Decide(r);
      s' := if s.cache.generation != g || result.Invalidated? then Again(s, r)
            else SetReader(s, r, if result.Built? then Returned(result.jwks, seen) else Errored);
    case Waiting(version, seen, g, f) =>
      a, s' := FlightServes(s, r);
  }

  ghost function LockedSuccessor(s: State, r: nat, flight: nat): (s': State)
    requires r in s.readers && s.readers[r].phase.Missed? && flight !in s.flights
    ensures LockedStep(s, r, flight, s')
  {
    var Missed(version, seen) := s.readers[r].phase;
    var (c, outcome) := Locked(s.cache, version, s.now);
    var s1 := s.(cache := c, cacheSeen := seen);
    match outcome
    case Retry => Again(s, r)
    case Serve(jwks) => SetReader(s1, r, Returned(jwks, seen))
    case Join(g) =>
      if g in s.inflight then SetReader(s1, r, Waiting(version, seen, g, s.inflight[g]))
      else SetReader(s1.(flights := s.flights[flight := Flight(g, version, seen, Starting)], inflight := s.inflight[g := flight]),
                     r, Waiting(version, seen, g, flight))
  }

  lemma FlightServes(s: State, r: nat) returns (a: Action, s': State)
    requires Inv(s) && r in s.readers && s.readers[r].phase.Waiting?
    ensures Step(s, a, s') && Serves(s, a, r)
  {
    assert ReaderInv(s.history, s.cache.generation, s.flights, s.readers[r]);
    var Waiting(version, seen, g, f) := s.readers[r].phase;
    match s.flights[f].phase
    case Starting =>
      a := ListKeys(f);
      s' := SetFlight(s, f, if Last(s).build.Some? then Listed(Last(s).build.value, |s.history| - 1) else Over(Failed));
    case Listed(jwks, _) =>
      a := ConfirmVersion(f);
      s' := SetFlight(s, f, if Last(s).version != s.flights[f].version then Over(Invalidated) else Confirmed(jwks));
    case Confirmed(jwks) =>
      var (c, result) := AfterPublish(s.cache, s.flights[f].generation, jwks, s.now);
      a, s' := Publish(f), SetFlight(s.(cache := c), f, Over(result));
    case Over(result) =>
      if g in s.inflight && s.inflight[g] == f {
        a, s' := Land(f), s.(inflight := s.inflight - {g});
      } else {
        a, s' := Receive(r), SetReader(s, r, Received(version, seen, g, result));
      }
  }

  // ---------------------------------------------------------------- every call leaves its loop

  const STEPS_PER_ROUND: nat := 9

  function Stage(p: FlightPhase, inflight: bool): nat {
    match p
    case Starting => 6
    case Listed(_, _) => 5
    case Confirmed(_) => 4
    case Over(_) => if inflight then 3 else 2
  }

  /** How many serving steps the current round of a call can still take. */
  function Rank(s: State, r: nat): nat
    requires r in s.readers
  {
    match s.readers[r].phase
    case AtHead => 9
    case Versioned(_, _) => 8
    case Missed(_, _) => 7
    case Waiting(_, _, g, f) => if f in s.flights then Stage(s.flights[f].phase, g in s.inflight && s.inflight[g] == f) else 6
    case Received(_, _, _, _) => 1
    case Returned(_, _) => 0
    case Errored => 0
  }

  /** A step of the readers changes the rank of the reader that takes it. */
  lemma ReaderRank(s: State, a: Action, s': State, r: nat)
    requires |s.history| > 0 && Step(s, a, s') && r in s.readers && r in s'.readers
    requires s'.readers[r] != s.readers[r] && !Retries(s, s', r)
    ensures Rank(s', r) < Rank(s, r)
  {
    if a.LockedPath? {
      assert s'.readers[r].phase.Waiting? || s'.readers[r].phase.Returned?;
    }
  }

  /** A flight never goes back, and never returns to the single-flight table. */
  lemma StageFalls(s: State, a: Action, s': State, f: nat, g: nat)
    requires |s.history| > 0 && Step(s, a, s') && f in s.flights && s.flights[f].generation == g
    requires forall h :: h in s.inflight ==> s.inflight[h] in s.flights && s.flights[s.inflight[h]].generation == h
    ensures f in s'.flights
    ensures var before, after := Stage(s.flights[f].phase, g in s.inflight && s.inflight[g] == f), Stage(s'.flights[f].phase, g in s'.inflight && s'.inflight[g] == f);
            && after <= before
            && (a == ListKeys(f) || a == ConfirmVersion(f) || a == Publish(f) || a == Land(f) ==> after < before)
  {
  }

  /** A step that a reader takes itself changes the reader. */
  lemma OwnStepsMove(s: State, a: Action, s': State, r: nat)
    requires |s.history| > 0 && Step(s, a, s') && r in s.readers && r in s'.readers && s'.readers[r] == s.readers[r]
    ensures a != ReadVersion(r) && a != Receive(r) && a != Decide(r)
    ensures !(a.FastPath? && a.r == r) && !(a.LockedPath? && a.r == r)
  {
  }

  /** The other steps change it only through the flight that the reader waits for. */
  lemma FlightRank(s: State, a: Action, s': State, r: nat)
    requires Inv(s) && Step(s, a, s') && r in s.readers && r in s'.readers && s'.readers[r] == s.readers[r]
    ensures Rank(s', r) <= Rank(s, r)
    ensures Serves(s, a, r) ==> Rank(s', r) < Rank(s, r)
  {
    OwnStepsMove(s, a, s', r);
    assert ReaderInv(s.history, s.cache.generation, s.flights, s.readers[r]);
    if s.readers[r].phase.Waiting? {
      StageFalls(s, a, s', s.readers[r].phase.flight, s.readers[r].phase.generation);
    }
  }

  ghost predicate ServedAt(s: State, s': State, r: nat) {
    r in s.readers && |s.history| > 0 && exists a :: Step(s, a, s') && Serves(s, a, r)
  }

  /** How many of the first n steps served call r. */
  ghost function ServedCount(tr: seq<State>, n: nat, r: nat): nat
    requires n < |tr|
  {
    if n == 0 then 0
    else ServedCount(tr, n - 1, r) + if ServedAt(tr[n - 1], tr[n], r) then 1 else 0
  }

  lemma RankFalls(s: State, s': State, r: nat)
    requires Inv(s) && Next(s, s') && r in s.readers && r in s'.readers
    ensures Retries(s, s', r) ==> Rank(s, r) > 0
    ensures !Retries(s, s', r) ==> Rank(s', r) + (if ServedAt(s, s', r) then 1 else 0) <= Rank(s, r)
  {
    var a :| Step(s, a, s');
    if !Retries(s, s', r) {
      if s'.readers[r] != s.readers[r] {
        ReaderRank(s, a, s', r);
      } else {
        FlightRank(s, a, s', r);
        if ServedAt(s, s', r) {
          var b :| Step(s, b, s') && Serves(s, b, r);
          FlightRank(s, b, s', r);
        }
      }
    } else {
      assert a == Decide(r) || (a.LockedPath? && a.r == r);
    }
  }

  lemma {:induction false} ServingBound(tr: seq<State>, k: nat, n: nat, r: nat)
    requires Run(tr) && Starts(tr, k, r) && k < n < |tr|
    ensures r in tr[n].readers
    ensures ServedCount(tr, n, r) + Rank(tr[n], r) <= STEPS_PER_ROUND * (RetryCount(tr, n, r) + 1)
    decreases n
  {
    if n == k + 1 {
      NothingBefore(tr, k, r);
      StartedAtHead(tr, k, r);
    } else {
      ServingBound(tr, k, n - 1, r);
      RunAdvances(tr, n - 1);
      ReachableInv(tr, n - 1);
      assert NextAt(tr, n - 1);
      RankFalls(tr[n - 1], tr[n], r);
    }
  }

  /** Every call leaves its loop: while it is unfinished a serving step is enabled (NoCallIsStuck),
      and with m commits and v invalidations during the call it takes at most 9(m + v + 1). */
  lemma CallLeavesLoop(tr: seq<State>, k: nat, n: nat, r: nat)
    requires Run(tr) && Starts(tr, k, r) && k < n < |tr|
    ensures ServedCount(tr, n, r) <=
              STEPS_PER_ROUND * (1 + (|tr[n].history| - |tr[k].history|) + (tr[n].invalidations - tr[k].invalidations))
  {
    ServingBound(tr, k, n, r);
    RetryBound(tr, k, n, r);
  }
}
