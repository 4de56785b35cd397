/** Tool approvals: the repository's guarded transitions, the service operations around them, and
    the grouping of a sync response. */
module Approvals {
  import opened Prelude

  datatype Status = Pending | Approved | Denied

  datatype Persistence = Once | Session | Permanent

  /** The deduplication key; principal and agent form the rate-limited pair. */
  datatype Key = Key(principal: string, agent: string, tool: string, argumentsHash: string)

  datatype Approval = Approval(
    key: Key,
    session: Option<string>,
    status: Status,
    persistence: Option<Persistence>,
    consumed: bool,
    expiresAt: Time)

  type Store = map<string, Approval>

  predicate Expired(a: Approval, now: Time) {
    now > a.expiresAt
  }

  predicate Live(a: Approval, now: Time) {
    a.status.Pending? && !a.consumed && !Expired(a, now)
  }

  // ---------------------------------------------------------------- repository transitions

  /** None stands for the repository's not-found error. */
  function RepoApprove(st: Store, id: string, persistence: Persistence, now: Time): Option<Store> {
    if id !in st || !st[id].status.Pending? || Expired(st[id], now) then None
    else Some(st[id := st[id].(status := Approved, persistence := Some(persistence))])
  }

  function RepoDeny(st: Store, id: string, persistence: Option<Persistence>, now: Time): Option<Store> {
    if id !in st || !st[id].status.Pending? || Expired(st[id], now) then None
    else Some(st[id := st[id].(status := Denied, persistence := persistence)])
  }

  function RepoRevoke(st: Store, id: string): Option<Store> {
    if id !in st || st[id].persistence != Some(Permanent) || st[id].status.Pending? then None
    else Some(st[id := st[id].(status := Denied, persistence := None)])
  }

  function RepoConsume(st: Store, id: string): Option<Store> {
    if id !in st || !st[id].status.Approved? || st[id].persistence != Some(Once) || st[id].consumed then None
    else Some(st[id := st[id].(consumed := true)])
  }

  /** Idempotent creation: a live approval with the same key is returned as it is; otherwise the
      new one is stored.  Expired duplicates are retired on the way. */
  ghost predicate RepoCreate(st: Store, id: string, a: Approval, now: Time, st': Store, result: string) {
    && id !in st
    && Retired(st, a.key, now, st' - {id})
    && (if exists x :: x in st && st[x].key == a.key && Live(st[x], now)
        then id !in st' && result in st && st[result].key == a.key && Live(st[result], now)
        else id in st' && st'[id] == a && result == id)
  }

  /** st' is st, except that expired pending approvals of the key may now be consumed. */
  ghost predicate Retired(st: Store, key: Key, now: Time, st': Store) {
    && st'.Keys == st.Keys
    && forall x :: x in st ==>
         || st'[x] == st[x]
         || (st[x].key == key && st[x].status.Pending? && Expired(st[x], now) && st'[x] == st[x].(consumed := true))
  }

  datatype Mutation =
    | Create(id: string, approval: Approval, result: string)
    | Approve(id: string, persistence: Persistence)
    | Deny(id: string, denial: Option<Persistence>)
    | Revoke(id: string)
    | Consume(id: string)

  ghost predicate Mutates(st: Store, m: Mutation, now: Time, st': Store) {
    match m
    case Create(id, a, result) => a.status.Pending? && !a.consumed && RepoCreate(st, id, a, now, st', result)
    case Approve(id, p) => RepoApprove(st, id, p, now) == Some(st')
    case Deny(id, p) => RepoDeny(st, id, p, now) == Some(st')
    case Revoke(id) => RepoRevoke(st, id) == Some(st')
    case Consume(id) => RepoConsume(st, id) == Some(st')
  }

  // ---------------------------------------------------------------- what a sync request lists

  predicate Active(a: Approval, principal: Option<string>, sessions: set<string>, now: Time) {
    && (principal.Some? ==> a.key.principal == principal.value)
    && !(a.status.Pending? && Expired(a, now))
    && !a.consumed
    && (a.persistence == Some(Session) ==> a.session.Some? && a.session.value != "" && a.session.value in sessions)
  }

  /** The approvals that the repository lists for a sync request. */
  function Listing(st: Store, principal: Option<string>, sessions: set<string>, now: Time): Store {
    map id | id in st && Active(st[id], principal, sessions, now) :: st[id]
  }

  datatype Entry = Entry(id: string, approval: Approval)

  /** The sequence holds every listed approval exactly once. */
  ghost predicate Lists(entries: seq<Entry>, listing: Store) {
    && (forall i :: 0 <= i < |entries| ==> entries[i].id in listing && entries[i].approval == listing[entries[i].id])
    && (forall i, j :: 0 <= i < j < |entries| ==> entries[i].id != entries[j].id)
    && (forall id :: id in listing ==> exists i :: 0 <= i < |entries| && entries[i].id == id)
  }

  lemma ListExtended(entries: seq<Entry>, listing: Store, e: Entry)
    requires Lists(entries, listing) && e.id !in listing
    ensures Lists(entries + [e], listing[e.id := e.approval])
  {
    var longer, extended := entries + [e], listing[e.id := e.approval];
    forall id | id in extended ensures exists i :: 0 <= i < |longer| && longer[i].id == id {
      if id == e.id {
        assert longer[|entries|].id == id;
      } else {
        var i :| 0 <= i < |entries| && entries[i].id == id;
        assert longer[i].id == id;
      }
    }
  }

  // ---------------------------------------------------------------- the in-memory repository

  predicate Matches(a: Approval, key: Key) {
    a.key == key && a.status.Pending? && !a.consumed
  }

  function PendingOf(st: Store, principal: string, agent: string, now: Time): set<string> {
    set id | id in st && st[id].key.principal == principal && st[id].key.agent == agent
             && st[id].status.Pending? && !Expired(st[id], now)
  }

  class ToolApprovalRepository {
    var approvals: Store

    constructor ()
      ensures approvals == map[]
    {
      approvals := map[];
    }

    method Create(id: string, a: Approval, now: Time) returns (result: string)
      requires id !in approvals
      modifies this
      ensures RepoCreate(old(approvals), id, a, now, approvals, result)
    {
      var rest := approvals.Keys;
      while rest != {}
        invariant Retired(old(approvals), a.key, now, approvals)
        invariant rest <= approvals.Keys
        invariant forall x :: x in approvals && x !in rest ==> !Matches(approvals[x], a.key)
      {
        var x :| x in rest;
        rest := rest - {x};
        if Matches(approvals[x], a.key) {
          if !Expired(approvals[x], now) {
            assert approvals - {id} == approvals;
            return x;
          }
          approvals := approvals[x := approvals[x].(consumed := true)];
        }
      }
      ghost var retired := approvals;
      approvals := approvals[id := a];
      assert approvals - {id} == retired;
      result := id;
    }

    method Approve(id: string, persistence: Persistence, now: Time) returns (ok: bool)
      modifies this
      ensures RepoApprove(old(approvals), id, persistence, now) == if ok then Some(approvals) else None
      ensures !ok ==> approvals == old(approvals)
    {
      ok := id in approvals && approvals[id].status.Pending? && !Expired(approvals[id], now);
      if ok {
        approvals := approvals[id := approvals[id].(status := Approved, persistence := Some(persistence))];
      }
    }

    method Deny(id: string, persistence: Option<Persistence>, now: Time) returns (ok: bool)
      modifies this
      ensures RepoDeny(old(approvals), id, persistence, now) == if ok then Some(approvals) else None
      ensures !ok ==> approvals == old(approvals)
    {
      ok := id in approvals && approvals[id].status.Pending? && !Expired(approvals[id], now);
      if ok {
        approvals := approvals[id := approvals[id].(status := Denied, persistence := persistence)];
      }
    }

    method RevokePermanent(id: string) returns (ok: bool)
      modifies this
      ensures RepoRevoke(old(approvals), id) == if ok then Some(approvals) else None
      ensures !ok ==> approvals == old(approvals)
    {
      ok := id in approvals && approvals[id].persistence == Some(Permanent) && (approvals[id].status.Approved? || approvals[id].status.Denied?);
      if ok {
        approvals := approvals[id := approvals[id].(status := Denied, persistence := None)];
      }
    }

    method Consume(id: string) returns (ok: bool)
      modifies this
      ensures RepoConsume(old(approvals), id) == if ok then Some(approvals) else None
      ensures !ok ==> approvals == old(approvals)
    {
      ok := id in approvals && approvals[id].status.Approved? && approvals[id].persistence == Some(Once) && !approvals[id].consumed;
      if ok {
        approvals := approvals[id := approvals[id].(consumed := true)];
      }
    }

    /** Each active approval once, in no particular order. */
    method ListAllActive(principal: Option<string>, sessions: set<string>, now: Time) returns (entries: seq<Entry>)
      ensures Lists(entries, Listing(approvals, principal, sessions, now))
    {
      entries := [];
      var rest := approvals.Keys;
      ghost var listing := Listing(approvals, principal, sessions, now);
      while rest != {}
        invariant rest <= approvals.Keys
        invariant Lists(entries, listing - rest)
      {
        var id :| id in rest;
        ghost var before := listing - rest;
        rest := rest - {id};
        if !Active(approvals[id], principal, sessions, now) {
          assert listing - rest == before;
          continue;
        }
        assert listing - rest == before[id := approvals[id]];
        ListExtended(entries, before, Entry(id, approvals[id]));
        entries := entries + [Entry(id, approvals[id])];
      }
      assert listing - rest == listing;
    }

    method CountPendingByPrincipalAndAgent(principal: string, agent: string, now: Time) returns (count: nat)
      ensures count == |PendingOf(approvals, principal, agent, now)|
    {
      count := 0;
      ghost var seen: set<string> := {};
      var rest := approvals.Keys;
      while rest != {}
        invariant rest <= approvals.Keys
        invariant seen == PendingOf(approvals, principal, agent, now) - rest && count == |seen|
      {
        var x :| x in rest;
        rest := rest - {x};
        var a := approvals[x];
        if a.key.principal == principal && a.key.agent == agent && a.status.Pending? && !Expired(a, now) {
          count := count + 1;
          seen := seen + {x};
        }
      }
      assert PendingOf(approvals, principal, agent, now) - rest == PendingOf(approvals, principal, agent, now);
    }

    method FindPendingByKey(key: Key, now: Time) returns (found: Option<string>)
      ensures found.Some? ==> found.value in approvals && approvals[found.value].key == key && Live(approvals[found.value], now)
      ensures found.None? ==> forall x :: x in approvals && approvals[x].key == key ==> !Live(approvals[x], now)
    {
      var rest := approvals.Keys;
      while rest != {}
        invariant rest <= approvals.Keys
        invariant forall x :: x in approvals && x !in rest && approvals[x].key == key ==> !Live(approvals[x], now)
      {
        var x :| x in rest;
        rest := rest - {x};
        if approvals[x].key == key && Live(approvals[x], now) {
          return Some(x);
        }
      }
      found := None;
    }
  }

  // ---------------------------------------------------------------- decisions are final

  /** A decision is never taken back to pending, a denial is never turned into an approval, a
      consumed approval stays consumed, and the reviewed call never changes. */
  predicate Later(a: Approval, b: Approval) {
    && b.key == a.key && b.session == a.session && b.expiresAt == a.expiresAt
    && (a.status.Approved? ==> !b.status.Pending?)
    && (a.status.Denied? ==> b.status.Denied?)
    && (a.consumed ==> b.consumed)
  }

  ghost predicate Evolves(a: Store, b: Store) {
    a.Keys <= b.Keys && forall id :: id in a ==> Later(a[id], b[id])
  }

  lemma MutationsEvolve(st: Store, m: Mutation, now: Time, st': Store)
    requires Mutates(st, m, now, st')
    ensures Evolves(st, st')
  {
    if m.Create? {
      forall x | x in st ensures x in st' && Later(st[x], st'[x]) {
        assert x in st' - {m.id};
      }
    }
  }

  lemma EvolvesTransitive(a: Store, b: Store, c: Store)
    requires Evolves(a, b) && Evolves(b, c)
    ensures Evolves(a, c)
  {
  }

  // ---------------------------------------------------------------- service operations

  datatype ServiceError = NotFound | Forbidden | Gone | NotPending | InvalidPattern | NotConsumable | NotRevocable

  /** The three moments of an operation that can race: the first read, the guarded write, and the
      read that explains a refused write. */
  datatype Moments = Moments(before: Store, beforeNow: Time, at: Store, atNow: Time, after: Store, afterNow: Time)

  ghost predicate Consistent(w: Moments) {
    Evolves(w.before, w.at) && Evolves(w.at, w.after) && w.beforeNow <= w.atNow <= w.afterNow
  }

  function ExplainRefusal(after: Store, id: string, now: Time): ServiceError {
    if id !in after then NotFound
    else if after[id].status.Pending? && Expired(after[id], now) then Gone
    else NotPending
  }

  /** The checks that approve and deny share. */
  function Actionable(st: Store, id: string, acting: string, now: Time): Option<ServiceError> {
    if id !in st then Some(NotFound)
    else if st[id].key.principal != acting then Some(Forbidden)
    else if !st[id].status.Pending? then Some(NotPending)
    else if Expired(st[id], now) then Some(Gone)
    else None
  }

  function ApproveApproval(w: Moments, id: string, acting: string, persistence: Persistence, patternCovers: bool): Result<Store, ServiceError> {
    var refusal := Actionable(w.before, id, acting, w.beforeNow);
    if refusal.Some? then Err(refusal.value)
    else if !patternCovers then Err(InvalidPattern)
    else
      match RepoApprove(w.at, id, persistence, w.atNow)
      case Some(st) => Ok(st)
      case None => Err(ExplainRefusal(w.after, id, w.afterNow))
  }

  function DenyApproval(w: Moments, id: string, acting: string, persistence: Option<Persistence>): Result<Store, ServiceError> {
    var refusal := Actionable(w.before, id, acting, w.beforeNow);
    if refusal.Some? then Err(refusal.value)
    else
      match RepoDeny(w.at, id, persistence, w.atNow)
      case Some(st) => Ok(st)
      case None => Err(ExplainRefusal(w.after, id, w.afterNow))
  }

  /** None means that the approval was already consumed and nothing is written. */
  function ConsumeApproval(w: Moments, id: string, acting: string): Result<Option<Store>, ServiceError> {
    if id !in w.before then Err(NotFound)
    else
      var a := w.before[id];
      if a.key.principal != acting then Err(Forbidden)
      else if a.consumed then Ok(None)
      else if !a.status.Approved? || a.persistence != Some(Once) then Err(NotConsumable)
      else
        match RepoConsume(w.at, id)
        case Some(st) => Ok(Some(st))
        case None =>
          if id !in w.after then Err(NotFound)
          else if w.after[id].key.principal != acting then Err(Forbidden)
          else if w.after[id].consumed then Ok(None)
          else Err(NotFound)
  }

  function RevokePermanentApproval(w: Moments, id: string, acting: string): Result<Store, ServiceError> {
    if id !in w.before then Err(NotFound)
    else if w.before[id].key.principal != acting then Err(Forbidden)
    else if w.before[id].persistence != Some(Permanent) then Err(NotRevocable)
    else
      match RepoRevoke(w.at, id)
      case Some(st) => Ok(st)
      case None => if id in w.after && w.after[id].key.principal == acting then Err(NotRevocable) else Err(NotFound)
  }

  /** Only the acting principal's own approval is changed, and nothing else is. */
  ghost predicate ChangesOwn(at: Store, id: string, acting: string, st': Store) {
    id in at && at[id].key.principal == acting && id in st' && st' == at[id := st'[id]] && Later(at[id], st'[id])
  }

  /** An approval that a single call may still use up. */
  predicate SingleUse(a: Approval) {
    a.status.Approved? && a.persistence == Some(Once) && !a.consumed
  }

  predicate PendingExpired(st: Store, id: string, now: Time) {
    id in st && st[id].status.Pending? && Expired(st[id], now)
  }

  /** Whatever races, a successful operation changed exactly the named approval of the acting
      principal, and only by a transition that was legal at the moment of the write.  The owner's
      approve or deny succeeds exactly when the approval is pending and unexpired at the write; it
      reports NotPending only for a decided approval, and Gone only for one that was pending and
      expired when it was read, before or after the race.  Each success writes exactly the decision
      that was asked for. */
  lemma OperationsRespectOwnership(w: Moments, id: string, acting: string, p: Persistence, denial: Option<Persistence>, covers: bool)
    requires Consistent(w)
    ensures var r := ApproveApproval(w, id, acting, p, covers);
            && (r.Ok? ==> ChangesOwn(w.at, id, acting, r.value)
                          && r.value == w.at[id := w.at[id].(status := Approved, persistence := Some(p))])
            && (r.Ok? <==> id in w.before && w.before[id].key.principal == acting && covers
                           && w.at[id].status.Pending? && !Expired(w.at[id], w.atNow))
            && (r == Err(NotPending) ==> id in w.after && !w.after[id].status.Pending?)
            && (r == Err(Gone) ==> PendingExpired(w.before, id, w.beforeNow) || PendingExpired(w.after, id, w.afterNow))
            && (r == Err(NotFound) <==> id !in w.before)
            && (r == Err(Forbidden) <==> id in w.before && w.before[id].key.principal != acting)
    ensures var r := DenyApproval(w, id, acting, denial);
            && (r.Ok? ==> ChangesOwn(w.at, id, acting, r.value)
                          && r.value == w.at[id := w.at[id].(status := Denied, persistence := denial)])
            && (r.Ok? <==> id in w.before && w.before[id].key.principal == acting
                           && w.at[id].status.Pending? && !Expired(w.at[id], w.atNow))
            && (r == Err(NotPending) ==> id in w.after && !w.after[id].status.Pending?)
            && (r == Err(Gone) ==> PendingExpired(w.before, id, w.beforeNow) || PendingExpired(w.after, id, w.afterNow))
            && (r == Err(NotFound) <==> id !in w.before)
            && (r == Err(Forbidden) <==> id in w.before && w.before[id].key.principal != acting)
    ensures var r := ConsumeApproval(w, id, acting);
            && (r.Ok? && r.value.Some? ==> ChangesOwn(w.at, id, acting, r.value.value)
                                             && r.value.value == w.at[id := w.at[id].(consumed := true)])
            && (r.Ok? && r.value.Some? <==> id in w.before && w.before[id].key.principal == acting
                                             && SingleUse(w.before[id]) && SingleUse(w.at[id]))
            && (r.Ok? ==> id in w.before && w.before[id].key.principal == acting)
            && (r == Ok(None) ==> id in w.after && w.after[id].consumed)
    ensures var r := RevokePermanentApproval(w, id, acting);
            && (r.Ok? ==> ChangesOwn(w.at, id, acting, r.value)
                          && r.value == w.at[id := w.at[id].(status := Denied, persistence := None)])
            && (r.Ok? <==> id in w.before && w.before[id].key.principal == acting && w.before[id].persistence == Some(Permanent)
                           && w.at[id].persistence == Some(Permanent) && !w.at[id].status.Pending?)
  {
    if id in w.before {
      assert Later(w.before[id], w.at[id]) && Later(w.at[id], w.after[id]);
    }
  }

  /** The principal's listing holds the approval. */
  predicate Shows(st: Store, id: string, principal: string, sessions: set<string>, now: Time) {
    id in Listing(st, Some(principal), sessions, now)
  }

  /** What gateways see follows the decisions.  A pending approval is listed until its deadline and
      not after; an approval or denial is listed from then on, for its session only if it is a
      session decision; a used-up one never; a revoked one as a plain denial, in every session; and
      no one else's listing ever holds it. */
  lemma ListingFollowsDecisions(st: Store, id: string, p: Persistence, denial: Option<Persistence>, sessions: set<string>, decided: Time, now: Time)
    requires id in st && !st[id].consumed
    ensures st[id].status.Pending? && st[id].persistence.None? ==> (Shows(st, id, st[id].key.principal, sessions, now) <==> now <= st[id].expiresAt)
    ensures forall other :: other != st[id].key.principal ==> !Shows(st, id, other, sessions, now)
    ensures var st' := RepoApprove(st, id, p, decided);
            st'.Some? ==> (Shows(st'.value, id, st[id].key.principal, sessions, now) <==> (p.Session? ==> InSession(st[id], sessions)))
    ensures var st' := RepoDeny(st, id, denial, decided);
            st'.Some? ==> (Shows(st'.value, id, st[id].key.principal, sessions, now) <==> (denial == Some(Session) ==> InSession(st[id], sessions)))
    ensures var st' := RepoRevoke(st, id);
            st'.Some? ==> Shows(st'.value, id, st[id].key.principal, sessions, now) && st'.value[id].status.Denied?
    ensures var st' := RepoConsume(st, id);
            st'.Some? ==> !Shows(st'.value, id, st[id].key.principal, sessions, now)
  {
  }

  predicate InSession(a: Approval, sessions: set<string>) {
    a.session.Some? && a.session.value != "" && a.session.value in sessions
  }

  // ---------------------------------------------------------------- grouping

  datatype Pair = Pair(principal: string, agent: string)

  datatype SyncPair = SyncPair(pair: Pair, approvals: seq<Entry>)

  function PairOf(e: Entry): Pair {
    Pair(e.approval.key.principal, e.approval.key.agent)
  }

  /** The entries of one pair, in listing order. */
  function Belonging(entries: seq<Entry>, p: Pair): seq<Entry> {
    if |entries| == 0 then []
    else
      var front := Belonging(entries[..|entries| - 1], p);
      var e := entries[|entries| - 1];
      if PairOf(e) == p then front + [e] else front
  }

  /** The groups collected so far: one per pair that occurs in the entries. */
  ghost predicate Groups(entries: seq<Entry>, groups: map<Pair, seq<Entry>>) {
    && (forall e :: e in entries ==> PairOf(e) in groups)
    && (forall p :: p in groups ==> groups[p] == Belonging(entries, p) && groups[p] != [])
  }

  lemma {:induction false} BelongingFound(entries: seq<Entry>, p: Pair)
    ensures forall e :: e in Belonging(entries, p) ==> e in entries && PairOf(e) == p
    ensures (forall e :: e in entries ==> PairOf(e) != p) ==> Belonging(entries, p) == []
  {
    if |entries| > 0 {
      BelongingFound(entries[..|entries| - 1], p);
    }
  }

  lemma GroupsExtended(entries: seq<Entry>, groups: map<Pair, seq<Entry>>, e: Entry)
    requires Groups(entries, groups)
    ensures var p := PairOf(e);
            Groups(entries + [e], groups[p := (if p in groups then groups[p] else []) + [e]])
  {
    BelongingFound(entries, PairOf(e));
    assert (entries + [e])[..|entries|] == entries;
  }

  method CollectGroups(entries: seq<Entry>) returns (groups: map<Pair, seq<Entry>>)
    ensures Groups(entries, groups)
  {
    groups := map[];
    for i := 0 to |entries|
      invariant Groups(entries[..i], groups)
    {
      var p := PairOf(entries[i]);
      GroupsExtended(entries[..i], groups, entries[i]);
      assert entries[..i + 1] == entries[..i] + [entries[i]];
      groups := groups[p := (if p in groups then groups[p] else []) + [entries[i]]];
    }
    assert entries[..|entries|] == entries;
  }

  /** The groups are emitted in no particular order, each exactly once. */
  ghost predicate Emitted(pairs: seq<SyncPair>, groups: map<Pair, seq<Entry>>, done: set<Pair>) {
    && (forall i :: 0 <= i < |pairs| ==> pairs[i].pair in done && pairs[i].pair in groups && pairs[i].approvals == groups[pairs[i].pair])
    && (forall i, j :: 0 <= i < j < |pairs| ==> pairs[i].pair != pairs[j].pair)
    && (forall p :: p in done ==> exists i :: 0 <= i < |pairs| && pairs[i].pair == p)
  }

  lemma EmittedExtended(pairs: seq<SyncPair>, groups: map<Pair, seq<Entry>>, done: set<Pair>, p: Pair)
    requires Emitted(pairs, groups, done) && p in groups && p !in done
    ensures Emitted(pairs + [SyncPair(p, groups[p])], groups, done + {p})
  {
    var longer := pairs + [SyncPair(p, groups[p])];
    forall q | q in done + {p} ensures exists i :: 0 <= i < |longer| && longer[i].pair == q {
      if q == p {
        assert longer[|pairs|].pair == p;
      } else {
        var i :| 0 <= i < |pairs| && pairs[i].pair == q;
        assert longer[i].pair == q;
      }
    }
  }

  method EmitGroups(groups: map<Pair, seq<Entry>>) returns (pairs: seq<SyncPair>)
    ensures Emitted(pairs, groups, groups.Keys)
  {
    pairs := [];
    var rest := groups.Keys;
    while rest != {}
      invariant rest <= groups.Keys
      invariant Emitted(pairs, groups, groups.Keys - rest)
    {
      var p :| p in rest;
      EmittedExtended(pairs, groups, groups.Keys - rest, p);
      assert groups.Keys - (rest - {p}) == groups.Keys - rest + {p};
      pairs := pairs + [SyncPair(p, groups[p])];
      rest := rest - {p};
    }
    assert groups.Keys - rest == groups.Keys;
  }

  ghost predicate Grouped(entries: seq<Entry>, pairs: seq<SyncPair>) {
    && (forall i :: 0 <= i < |pairs| ==> pairs[i].approvals == Belonging(entries, pairs[i].pair) != [])
    && (forall i, j :: 0 <= i < j < |pairs| ==> pairs[i].pair != pairs[j].pair)
    && (forall e :: e in entries ==> exists i :: 0 <= i < |pairs| && pairs[i].pair == PairOf(e))
  }

  /** The grouping of GetSyncState: one group per pair that occurs, holding that pair's entries in
      listing order. */
  method GroupByPair(entries: seq<Entry>) returns (pairs: seq<SyncPair>)
    ensures Grouped(entries, pairs)
  {
    var groups := CollectGroups(entries);
    pairs := EmitGroups(groups);
  }

  /** Conservation: an entry occurs in its own pair's group as often as in the listing, and in no
      other group. */
  lemma {:induction false} GroupingConserves(entries: seq<Entry>, e: Entry, p: Pair)
    ensures multiset(Belonging(entries, p))[e] ==
              if e.approval.key.principal == p.principal && e.approval.key.agent == p.agent then multiset(entries)[e] else 0
  {
    if |entries| > 0 {
      var front, last := entries[..|entries| - 1], entries[|entries| - 1];
      GroupingConserves(front, e, p);
      assert entries == front + [last];
    }
  }

  /** The sync response over one store: every active approval of the request is in its pair's
      group, exactly once. */
  method GetSyncPairs(repo: ToolApprovalRepository, principal: Option<string>, sessions: set<string>, now: Time)
    returns (pairs: seq<SyncPair>)
    ensures exists entries ::
              && Lists(entries, Listing(repo.approvals, principal, sessions, now))
              && Grouped(entries, pairs)
  {
    var entries := repo.ListAllActive(principal, sessions, now);
    pairs := GroupByPair(entries);
    assert Grouped(entries, pairs);
  }
}
