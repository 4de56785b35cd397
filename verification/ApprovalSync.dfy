/** The approval sync protocol: mutators persist and then bump a version, readers read the version
    and then list. */
module ApprovalSync {
  import opened Prelude
  import opened Approvals

  /** Query parameters of a sync request. */
  datatype Query = Query(principal: Option<string>, sessions: set<string>)

  datatype Reader =
    | GotVersion(version: nat)
    | Answered(version: nat, query: Query, listing: Store, seen: nat, at: Time)

  /** stores is the history of the repository: entry i + 1 is what the i-th persisted write left
      behind.  A write that the service announces is in flight until its version number is known;
      it can also stay without one, when the increment fails. */
  datatype State = State(
    atomically: bool,
    stores: seq<Store>,
    loud: set<nat>,
    inFlight: set<nat>,
    failed: set<nat>,
    version: nat,
    numbers: map<nat, nat>,
    readers: map<nat, Reader>,
    now: Time)

  /** A creation that found a live duplicate is not announced. */
  predicate Announced(m: Mutation) {
    m.Create? ==> m.result == m.id
  }

  datatype Action =
    | Persist(mutation: Mutation, after: Store)
    | Increment(write: nat)
    | IncrementFails(write: nat)
    | ReadVersion(reader: nat)
    | List(reader: nat, query: Query)
    | Tick(duration: nat)

  function Latest(s: State): Store
    requires |s.stores| > 0
  {
    s.stores[|s.stores| - 1]
  }

  ghost predicate Step(s: State, a: Action, s': State) {
    && |s.stores| > 0
    && match a
       case Persist(m, after) =>
         var i := |s.stores|;
         && Mutates(Latest(s), m, s.now, after)
         && s' == if !Announced(m) then s.(stores := s.stores + [after])
                  else if s.atomically then s.(stores := s.stores + [after], loud := s.loud + {i}, version := s.version + 1, numbers := s.numbers[i := s.version + 1])
                  else s.(stores := s.stores + [after], loud := s.loud + {i}, inFlight := s.inFlight + {i})
       case Increment(i) =>
         i in s.inFlight && s' == s.(inFlight := s.inFlight - {i}, version := s.version + 1, numbers := s.numbers[i := s.version + 1])
       case IncrementFails(i) =>
         i in s.inFlight && s' == s.(inFlight := s.inFlight - {i}, failed := s.failed + {i})
       case ReadVersion(r) =>
         r !in s.readers && s' == s.(readers := s.readers[r := GotVersion(s.version)])
       case List(r, q) =>
         && r in s.readers && s.readers[r].GotVersion?
         && s' == s.(readers := s.readers[r := Answered(s.readers[r].version, q, Listing(Latest(s), q.principal, q.sessions, s.now), |s.stores| - 1, s.now)])
       case Tick(d) => s' == s.(now := s.now + d)
  }

  ghost predicate Init(s: State) {
    |s.stores| == 1 && s.loud == s.inFlight == s.failed == {} && s.version == 0 && s.numbers == map[] && s.readers == map[]
  }

  ghost predicate Next(s: State, s': State) {
    exists a :: Step(s, a, s')
  }

  ghost predicate NextAt(tr: seq<State>, i: nat)
    requires i + 1 < |tr|
  {
    Next(tr[i], tr[i + 1])
  }

  ghost predicate Run(tr: seq<State>) {
    |tr| > 0 && Init(tr[0]) && forall i: nat :: i + 1 < |tr| ==> NextAt(tr, i)
  }

  // ---------------------------------------------------------------- invariants

  /** Version numbers are handed out once each, to announced writes only, and an announced write
      without a number is still in flight or has failed. */
  ghost predicate Numbered(count: nat, loud: set<nat>, inFlight: set<nat>, failed: set<nat>, version: nat, numbers: map<nat, nat>) {
    && (forall i :: i in loud ==> 1 <= i < count)
    && loud == numbers.Keys + inFlight + failed
    && (forall i :: i in numbers ==> 1 <= numbers[i] <= version && i !in inFlight)
    && (forall i, j :: i in numbers && j in numbers && numbers[i] == numbers[j] ==> i == j)
  }

  ghost predicate Answers(r: Reader, stores: seq<Store>, version: nat, numbers: map<nat, nat>, now: Time) {
    && r.version <= version
    && (r.Answered? ==>
          && r.seen < |stores| && r.at <= now
          && r.listing == Listing(stores[r.seen], r.query.principal, r.query.sessions, r.at)
          && (forall i :: i in numbers && numbers[i] <= r.version ==> i <= r.seen))
  }

  /** A write that is not announced leaves every listing as it was. */
  ghost predicate SameListings(a: Store, b: Store, now: Time) {
    forall q: Query, t: Time :: now <= t ==>
      Listing(a, q.principal, q.sessions, t) == Listing(b, q.principal, q.sessions, t)
  }

  ghost predicate QuietAt(s: State, i: nat)
    requires i + 1 < |s.stores|
  {
    i + 1 in s.loud || SameListings(s.stores[i], s.stores[i + 1], s.now)
  }

  ghost predicate Quiet(s: State) {
    forall i: nat :: i + 1 < |s.stores| ==> QuietAt(s, i)
  }

  ghost predicate EvolvesAt(stores: seq<Store>, i: nat)
    requires i + 1 < |stores|
  {
    Evolves(stores[i], stores[i + 1])
  }

  ghost predicate Inv(s: State) {
    && |s.stores| > 0
    && Numbered(|s.stores|, s.loud, s.inFlight, s.failed, s.version, s.numbers)
    && (forall r :: r in s.readers ==> Answers(s.readers[r], s.stores, s.version, s.numbers, s.now))
    && (forall i: nat :: i + 1 < |s.stores| ==> EvolvesAt(s.stores, i))
    && (s.atomically ==> s.inFlight == s.failed == {})
  }

  lemma UnannouncedKeepsListings(st: Store, m: Mutation, now: Time, st': Store)
    requires Mutates(st, m, now, st') && !Announced(m)
    ensures SameListings(st, st', now)
  {
    assert m.id !in st';
    assert st' - {m.id} == st';
  }

  lemma HistoryStep(stores: seq<Store>, st: Store)
    requires |stores| > 0 && Evolves(stores[|stores| - 1], st)
    requires forall i: nat :: i + 1 < |stores| ==> EvolvesAt(stores, i)
    ensures forall i: nat :: i + 1 < |stores + [st]| ==> EvolvesAt(stores + [st], i)
  {
    forall i: nat | i + 1 < |stores + [st]| ensures EvolvesAt(stores + [st], i) {
      if i + 1 < |stores| {
        assert EvolvesAt(stores, i);
      }
    }
  }

  lemma ReadersKeep(readers: map<nat, Reader>, s: State, s': State)
    requires forall r :: r in readers ==> Answers(readers[r], s.stores, s.version, s.numbers, s.now)
    requires s.stores <= s'.stores && s.version <= s'.version && s.now <= s'.now
    requires forall i :: i in s'.numbers && s'.numbers[i] <= s.version ==> i in s.numbers && s.numbers[i] == s'.numbers[i]
    ensures forall r :: r in readers ==> Answers(readers[r], s'.stores, s'.version, s'.numbers, s'.now)
  {
  }

  lemma PersistKeepsInv(s: State, m: Mutation, after: Store, s': State)
    requires Inv(s) && Step(s, Persist(m, after), s')
    ensures Inv(s')
  {
    MutationsEvolve(Latest(s), m, s.now, after);
    HistoryStep(s.stores, after);
    ReadersKeep(s.readers, s, s');
  }

  lemma StepKeepsInv(s: State, a: Action, s': State)
    requires Inv(s) && Step(s, a, s')
    ensures Inv(s')
  {
    match a
    case Persist(m, after) => PersistKeepsInv(s, m, after, s');
    case Increment(i) => ReadersKeep(s.readers, s, s');
    case IncrementFails(i) => ReadersKeep(s.readers, s, s');
    case ReadVersion(r) => ReadersKeep(s.readers, s, s');
    case List(r, q) => ReadersKeep(s.readers, s, s');
    case Tick(d) => ReadersKeep(s.readers, s, s');
  }

  lemma QuietFramed(s: State, s': State)
    requires Quiet(s) && s'.stores == s.stores && s'.loud == s.loud && s.now <= s'.now
    ensures Quiet(s')
  {
    forall i: nat | i + 1 < |s'.stores| ensures QuietAt(s', i) {
      assert QuietAt(s, i);
    }
  }

  lemma StepKeepsQuiet(s: State, a: Action, s': State)
    requires Inv(s) && Quiet(s) && Step(s, a, s')
    ensures Quiet(s')
  {
    if a.Persist? {
      if !Announced(a.mutation) {
        UnannouncedKeepsListings(Latest(s), a.mutation, s.now, a.after);
      }
      forall i: nat | i + 1 < |s'.stores| ensures QuietAt(s', i) {
        if i + 1 < |s.stores| {
          assert QuietAt(s, i);
        }
      }
    } else {
      QuietFramed(s, s');
    }
  }

  lemma {:induction false} ReachableInv(tr: seq<State>, j: nat)
    requires Run(tr) && j < |tr|
    ensures Inv(tr[j]) && Quiet(tr[j])
  {
    if j > 0 {
      ReachableInv(tr, j - 1);
      assert NextAt(tr, j - 1);
      var a :| Step(tr[j - 1], a, tr[j]);
      StepKeepsInv(tr[j - 1], a, tr[j]);
      StepKeepsQuiet(tr[j - 1], a, tr[j]);
    }
  }

  // ---------------------------------------------------------------- theorems

  lemma {:induction false} HistoryEvolves(stores: seq<Store>, i: nat, j: nat)
    requires i <= j < |stores|
    requires forall k: nat :: k + 1 < |stores| ==> EvolvesAt(stores, k)
    ensures Evolves(stores[i], stores[j])
    decreases j
  {
    if i < j {
      HistoryEvolves(stores, i, j - 1);
      assert EvolvesAt(stores, j - 1);
      EvolvesTransitive(stores[i], stores[j - 1], stores[j]);
    }
  }

  /** An answer (v, listing) reflects every write numbered at most v: the listing was taken from a
      store that is at least as recent as what that write left behind. */
  lemma NoMissedMutation(tr: seq<State>, j: nat, r: nat, i: nat)
    requires Run(tr) && j < |tr|
    requires r in tr[j].readers && tr[j].readers[r].Answered?
    requires i in tr[j].numbers && tr[j].numbers[i] <= tr[j].readers[r].version
    ensures var s, answer := tr[j], tr[j].readers[r];
            && i <= answer.seen < |s.stores|
            && answer.listing == Listing(s.stores[answer.seen], answer.query.principal, answer.query.sessions, answer.at)
            && Evolves(s.stores[i], s.stores[answer.seen])
  {
    ReachableInv(tr, j);
    var s, answer := tr[j], tr[j].readers[r];
    assert Answers(answer, s.stores, s.version, s.numbers, s.now);
    HistoryEvolves(s.stores, i, answer.seen);
  }

  /** What is left of a listing once the clock has moved on. */
  function StillActive(listing: Store, now: Time): Store {
    map id | id in listing && !(listing[id].status.Pending? && Expired(listing[id], now)) :: listing[id]
  }

  lemma ListingAges(st: Store, q: Query, at: Time, now: Time)
    requires at <= now
    ensures Listing(st, q.principal, q.sessions, now) == StillActive(Listing(st, q.principal, q.sessions, at), now)
  {
  }

  lemma {:induction false} QuietTail(s: State, i: nat, q: Query)
    requires Quiet(s) && i < |s.stores|
    requires forall k :: k in s.loud ==> k <= i
    ensures Listing(s.stores[i], q.principal, q.sessions, s.now) == Listing(Latest(s), q.principal, q.sessions, s.now)
    decreases |s.stores| - i
  {
    if i + 1 < |s.stores| {
      assert QuietAt(s, i);
      QuietTail(s, i + 1, q);
    }
  }

  /** An answer whose version is still the current one is complete: if no write since the listing
      is unnumbered, it is exactly the store's active approvals, less those that expired since.
      Writes that were persisted before the listing do not matter, numbered or not. */
  lemma CurrentVersionMeansCurrentListing(tr: seq<State>, j: nat, r: nat)
    requires Run(tr) && j < |tr|
    requires r in tr[j].readers && tr[j].readers[r].Answered?
    requires tr[j].version == tr[j].readers[r].version
    requires forall k :: k in tr[j].inFlight + tr[j].failed ==> k <= tr[j].readers[r].seen
    ensures var s, answer := tr[j], tr[j].readers[r];
            |s.stores| > 0 && Listing(Latest(s), answer.query.principal, answer.query.sessions, s.now) == StillActive(answer.listing, s.now)
  {
    ReachableInv(tr, j);
    var s, answer := tr[j], tr[j].readers[r];
    assert Answers(answer, s.stores, s.version, s.numbers, s.now);
    forall k | k in s.loud ensures k <= answer.seen {
      assert k in s.numbers || k in s.inFlight + s.failed;
    }
    QuietTail(s, answer.seen, answer.query);
    ListingAges(s.stores[answer.seen], answer.query, answer.at, s.now);
  }

  /** A repository that numbers its writes in the same transaction never has one in between, so
      there the current version always means the current listing. */
  lemma AtomicRepositoryIsAlwaysCurrent(tr: seq<State>, j: nat, r: nat)
    requires Run(tr) && j < |tr| && tr[j].atomically
    requires r in tr[j].readers && tr[j].readers[r].Answered?
    requires tr[j].version == tr[j].readers[r].version
    ensures var s, answer := tr[j], tr[j].readers[r];
            |s.stores| > 0 && Listing(Latest(s), answer.query.principal, answer.query.sessions, s.now) == StillActive(answer.listing, s.now)
  {
    ReachableInv(tr, j);
    CurrentVersionMeansCurrentListing(tr, j, r);
  }

  lemma StepEvolves(s: State, s': State)
    requires Next(s, s')
    ensures |s.stores| > 0 && |s'.stores| > 0 && Evolves(Latest(s), Latest(s'))
  {
    var a :| Step(s, a, s');
    if a.Persist? {
      MutationsEvolve(Latest(s), a.mutation, s.now, a.after);
    }
  }

  /** Decisions are final over whole runs: whatever a store held, later stores hold with the same
      key, a denial stays a denial, and a consumed approval stays consumed. */
  lemma {:induction false} DecisionsAreFinal(tr: seq<State>, i: nat, j: nat)
    requires Run(tr) && i <= j < |tr|
    ensures |tr[i].stores| > 0 && |tr[j].stores| > 0 && Evolves(Latest(tr[i]), Latest(tr[j]))
    decreases j
  {
    ReachableInv(tr, i);
    ReachableInv(tr, j);
    if i < j {
      DecisionsAreFinal(tr, i, j - 1);
      assert NextAt(tr, j - 1);
      StepEvolves(tr[j - 1], tr[j]);
      EvolvesTransitive(Latest(tr[i]), Latest(tr[j - 1]), Latest(tr[j]));
    }
  }

  /** The condition is needed: here a write that was persisted after the listing, and whose
      increment failed, is missing from an answer whose version is still the current one. */
  lemma FailedIncrementHidesWrite(key: Key) returns (tr: seq<State>)
    ensures Run(tr) && |tr| == 5
    ensures var s := tr[4];
            && 0 in s.readers && s.readers[0].Answered? && s.readers[0].version == s.version
            && s.inFlight == {} && s.failed == {s.readers[0].seen + 1}
            && |s.stores| > 0 && Listing(Latest(s), None, {}, s.now) != StillActive(s.readers[0].listing, s.now)
  {
    var q := Query(None, {});
    var a := Approval(key, None, Pending, None, false, 1);
    var s0 := State(false, [map[]], {}, {}, {}, 0, map[], map[], 0);
    var s1 := s0.(readers := map[0 := GotVersion(0)]);
    var s2 := s1.(readers := map[0 := Answered(0, q, Listing(map[], None, {}, 0), 0, 0)]);
    var s3 := s2.(stores := [map[], map["a" := a]], loud := {1}, inFlight := {1});
    var s4 := s3.(inFlight := {}, failed := {1});
    tr := [s0, s1, s2, s3, s4];
    assert Step(s0, ReadVersion(0), s1);
    assert Step(s1, List(0, q), s2);
    assert Step(s2, Persist(Create("a", a, "a"), map["a" := a]), s3) by {
      assert map["a" := a] - {"a"} == map[];
      assert s3.stores == s2.stores + [map["a" := a]];
    }
    assert Step(s3, IncrementFails(1), s4);
    assert NextAt(tr, 0) && NextAt(tr, 1) && NextAt(tr, 2) && NextAt(tr, 3);
    assert "a" in Listing(Latest(s4), None, {}, 0);
  }
}
