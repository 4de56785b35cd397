/** The coalescing broadcaster: its methods over channels, and what every interleaving of
    broadcasts, timer callbacks, subscribers and long polls satisfies. */
module Broadcaster {
  import opened Prelude

  /** A channel with one buffered signal. */
  class Channel {
    var signalled: bool
    var closed: bool

    constructor ()
      ensures !signalled && !closed
    {
      signalled, closed := false, false;
    }
  }

  class SyncBroadcaster {
    const window: Time
    var subscribers: set<Channel>
    var pending: bool

    /** No registered channel is closed, so no send can hit a closed channel. */
    ghost predicate Valid()
      reads this, subscribers
    {
      forall ch :: ch in subscribers ==> !ch.closed
    }

    constructor (window: Time)
      ensures Valid() && this.window == window && subscribers == {} && !pending
    {
      this.window := window;
      subscribers, pending := {}, false;
    }

    method Subscribe() returns (ch: Channel)
      requires Valid()
      modifies this`subscribers
      ensures Valid() && fresh(ch) && !ch.signalled && subscribers == old(subscribers) + {ch}
    {
      ch := new Channel();
      subscribers := subscribers + {ch};
    }

    /** Deregistration under the mutex, then the close. */
    method Unsubscribe(ch: Channel)
      requires Valid() && ch in subscribers
      modifies this`subscribers, ch`closed
      ensures Valid() && ch.closed && subscribers == old(subscribers) - {ch}
    {
      subscribers := subscribers - {ch};
      ch.closed := true;
    }

    /** Without a window the signal goes out at once.  With one, the first broadcast asks for a
        timer and the following ones are absorbed until its callback runs. */
    method Broadcast() returns (startTimer: bool)
      requires Valid()
      modifies this`pending, subscribers`signalled
      ensures Valid()
      ensures window <= 0 ==> !startTimer && pending == old(pending) && forall ch :: ch in subscribers ==> ch.signalled
      ensures window > 0 ==> pending && startTimer == !old(pending) && forall ch :: ch in subscribers ==> ch.signalled == old(ch.signalled)
    {
      if window <= 0 {
        NotifyAll();
        return false;
      }
      if pending { return false; }
      pending := true;
      return true;
    }

    /** The first half of the timer callback. */
    method ClearPending()
      modifies this`pending
      ensures !pending
    {
      pending := false;
    }

    /** One signal per registered channel; a full channel is skipped. */
    method NotifyAll()
      requires Valid()
      modifies subscribers`signalled
      ensures Valid() && forall ch :: ch in subscribers ==> ch.signalled
    {
      var rest := subscribers;
      while rest != {}
        invariant rest <= subscribers
        invariant forall ch :: ch in subscribers && ch !in rest ==> ch.signalled
        invariant forall ch :: ch in subscribers ==> !ch.closed
      {
        var ch :| ch in rest;
        if !ch.signalled { ch.signalled := true; }
        rest := rest - {ch};
      }
    }
  }

  // ---------------------------------------------------------------- interleavings

  /** A long poll on its own channel: subscribed, then asleep because the version it read equals
      the version of the client, then awake. */
  datatype Poll = Subscribed(client: int) | Asleep(client: int) | Awake

  /** armed is the deadline of the running timer; callbacks counts timer callbacks that cleared
      the flag and have not notified yet; owed counts mutators between their version increment
      and their broadcast.  fires and unserved record past events for the statements: the
      moments at which timers fired, and the oldest broadcast that no notification followed. */
  datatype State = State(
    window: Time,
    now: Time,
    subscribers: set<nat>,
    leaving: set<nat>,
    closed: set<nat>,
    signalled: set<nat>,
    armed: Option<Time>,
    callbacks: nat,
    version: int,
    owed: nat,
    polls: map<nat, Poll>,
    fires: seq<Time>,
    unserved: Option<Time>)

  datatype Action =
    | Tick(t: Time)
    | Subscribe(ch: nat, client: int)
    | Deregister(ch: nat)
    | Close(ch: nat)
    | Increment
    | OwedBroadcast
    | Broadcast
    | Fire
    | Notify
    | ReadVersion(ch: nat)
    | Receive(ch: nat)

  function Notified(s: State): State {
    s.(signalled := s.signalled + s.subscribers, unserved := None)
  }

  function Broadcasted(s: State): State {
    if s.window <= 0 then Notified(s)
    else
      var s1 := if s.unserved.None? then s.(unserved := Some(s.now)) else s;
      if s.armed.Some? then s1 else s1.(armed := Some(s.now + s.window))
  }

  ghost predicate Step(s: State, a: Action, s': State) {
    match a
    case Tick(t) => t >= s.now && s' == s.(now := t)
    case Subscribe(ch, client) =>
      && ch !in s.polls
      && s' == s.(subscribers := s.subscribers + {ch}, polls := s.polls[ch := Subscribed(client)])
    case Deregister(ch) => ch in s.subscribers && s' == s.(subscribers := s.subscribers - {ch}, leaving := s.leaving + {ch})
    case Close(ch) => ch in s.leaving && s' == s.(leaving := s.leaving - {ch}, closed := s.closed + {ch})
    case Increment => s' == s.(version := s.version + 1, owed := s.owed + 1)
    case OwedBroadcast => s.owed > 0 && s' == Broadcasted(s.(owed := s.owed - 1))
    case Broadcast => s' == Broadcasted(s)
    case Fire =>
      && s.armed.Some? && s.now >= s.armed.value
      && s' == s.(armed := None, callbacks := s.callbacks + 1, fires := s.fires + [s.now])
    case Notify => s.callbacks > 0 && s' == Notified(s.(callbacks := s.callbacks - 1))
    case ReadVersion(ch) =>
      && ch in s.polls && s.polls[ch].Subscribed? && ch in s.subscribers
      && s' == s.(polls := s.polls[ch := if s.version == s.polls[ch].client then Asleep(s.polls[ch].client) else Awake])
    case Receive(ch) =>
      && ch in s.polls && ch in s.signalled && ch in s.subscribers
      && s' == s.(signalled := s.signalled - {ch}, polls := s.polls[ch := Awake])
  }

  ghost predicate Init(s: State) {
    && s.subscribers == s.leaving == s.closed == s.signalled == {} && s.armed.None? && s.callbacks == 0
    && s.owed == 0 && s.polls == map[] && s.fires == [] && s.unserved.None?
  }

  ghost predicate StepAt(tr: seq<State>, acts: seq<Action>, i: nat)
    requires i < |acts| && |tr| == |acts| + 1
  {
    Step(tr[i], acts[i], tr[i + 1])
  }

  ghost predicate Run(tr: seq<State>, acts: seq<Action>) {
    && |tr| == |acts| + 1 && Init(tr[0])
    && forall i: nat :: i < |acts| ==> StepAt(tr, acts, i)
  }

  /** A registered channel is never closed, and only known channels are registered. */
  ghost predicate ChannelInv(s: State) {
    && s.subscribers !! s.closed && s.subscribers !! s.leaving
    && s.subscribers + s.leaving + s.closed <= s.polls.Keys
  }

  /** Successive entries are at least w apart. */
  ghost predicate Spaced(fires: seq<Time>, w: Time) {
    forall i: nat :: i + 1 < |fires| ==> ApartAt(fires, w, i)
  }

  predicate ApartAt(fires: seq<Time>, w: Time, i: nat)
    requires i + 1 < |fires|
  {
    fires[i] + w <= fires[i + 1]
  }

  lemma SpacedExtended(fires: seq<Time>, w: Time, t: Time)
    requires Spaced(fires, w) && (|fires| > 0 ==> fires[|fires| - 1] + w <= t)
    ensures Spaced(fires + [t], w)
  {
    forall i: nat | i + 1 < |fires + [t]| ensures ApartAt(fires + [t], w, i) {
      if i + 1 < |fires| {
        assert ApartAt(fires, w, i);
      }
    }
  }

  ghost predicate TimerInv(s: State) {
    && (s.armed.Some? ==> s.window > 0 && s.armed.value <= s.now + s.window)
    && (|s.fires| > 0 ==> s.fires[|s.fires| - 1] <= s.now)
    && (s.window > 0 ==> Spaced(s.fires, s.window))
    && (s.armed.Some? && |s.fires| > 0 ==> s.armed.value >= s.fires[|s.fires| - 1] + s.window)
  }

  /** Every broadcast that is not yet served is covered by a callback or by a timer due in time,
      and a sleeping poll that fell behind has a signal or one is on its way. */
  ghost predicate WakeInv(s: State) {
    && (s.unserved.Some? ==> s.unserved.value <= s.now && (s.callbacks > 0 || (s.armed.Some? && s.armed.value <= s.unserved.value + s.window)))
    && (forall ch :: ch in s.polls && s.polls[ch].Asleep? && ch in s.subscribers && s.polls[ch].client != s.version ==>
          ch in s.signalled || s.owed > 0 || s.unserved.Some?)
  }

  ghost predicate Inv(s: State) {
    ChannelInv(s) && TimerInv(s) && WakeInv(s)
  }

  lemma StepKeepsChannels(s: State, a: Action, s': State)
    requires ChannelInv(s) && Step(s, a, s')
    ensures ChannelInv(s')
  {
  }

  lemma StepKeepsTimers(s: State, a: Action, s': State)
    requires TimerInv(s) && Step(s, a, s')
    ensures TimerInv(s')
  {
    if a.Fire? {
      SpacedExtended(s.fires, s.window, s.now);
    } else {
      assert s'.fires == s.fires && s'.window == s.window;
    }
  }

  lemma StepKeepsWakes(s: State, a: Action, s': State)
    requires ChannelInv(s) && TimerInv(s) && WakeInv(s) && Step(s, a, s')
    ensures WakeInv(s')
  {
  }

  lemma StepKeepsInv(s: State, a: Action, s': State)
    requires Inv(s) && Step(s, a, s')
    ensures Inv(s')
  {
    StepKeepsChannels(s, a, s');
    StepKeepsTimers(s, a, s');
    StepKeepsWakes(s, a, s');
  }

  lemma {:induction false} ReachableInv(tr: seq<State>, acts: seq<Action>, j: nat)
    requires Run(tr, acts) && j < |tr|
    ensures Inv(tr[j])
  {
    if j > 0 {
      ReachableInv(tr, acts, j - 1);
      assert StepAt(tr, acts, j - 1);
      StepKeepsInv(tr[j - 1], acts[j - 1], tr[j]);
    }
  }

  predicate Broadcasts(a: Action) {
    a.Broadcast? || a.OwedBroadcast?
  }

  /** Step m signalled every channel that was registered then. */
  ghost predicate NotifiesAt(tr: seq<State>, acts: seq<Action>, m: nat)
    requires m < |acts| && |tr| == |acts| + 1
  {
    acts[m].Notify? || (Broadcasts(acts[m]) && tr[m].window <= 0)
  }

  /** No lost wake-up: after a broadcast at step i, either a notification took place at or after
      it, or one is still due - from a callback under way or from a timer that is due no later
      than one window after the broadcast. */
  lemma {:induction false} NoLostBroadcast(tr: seq<State>, acts: seq<Action>, i: nat, j: nat)
    requires Run(tr, acts) && i < j < |tr| && Broadcasts(acts[i])
    ensures || (exists m: nat :: i <= m < j && NotifiesAt(tr, acts, m))
            || tr[j].callbacks > 0
            || (tr[j].armed.Some? && tr[j].armed.value <= tr[i].now + tr[i].window)
  {
    if !exists m: nat :: i <= m < j && NotifiesAt(tr, acts, m) {
      StaysUnserved(tr, acts, i, j);
      ReachableInv(tr, acts, j);
    }
  }

  lemma {:induction false} StaysUnserved(tr: seq<State>, acts: seq<Action>, i: nat, j: nat)
    requires Run(tr, acts) && i < j < |tr| && Broadcasts(acts[i])
    requires forall m: nat :: i <= m < j ==> !NotifiesAt(tr, acts, m)
    ensures tr[j].unserved.Some? && tr[j].unserved.value <= tr[i].now && tr[j].window == tr[i].window
  {
    assert StepAt(tr, acts, j - 1);
    assert !NotifiesAt(tr, acts, j - 1);
    ReachableInv(tr, acts, i);
    if i + 1 < j {
      StaysUnserved(tr, acts, i, j - 1);
    }
  }

  lemma NotificationSignals(tr: seq<State>, acts: seq<Action>, m: nat)
    requires Run(tr, acts) && m < |acts| && NotifiesAt(tr, acts, m)
    ensures tr[m].subscribers <= tr[m + 1].signalled
  {
    assert StepAt(tr, acts, m);
  }

  lemma {:induction false} RegisteredThroughout(tr: seq<State>, acts: seq<Action>, i: nat, m: nat, j: nat, ch: nat)
    requires Run(tr, acts) && i <= m <= j < |tr| && ch in tr[i].subscribers && ch in tr[j].subscribers
    ensures ch in tr[m].subscribers
    decreases j - m
  {
    if m < j {
      RegisteredThroughout(tr, acts, i, m + 1, j, ch);
      assert StepAt(tr, acts, m);
      if ch !in tr[m].subscribers {
        KnownForEver(tr, acts, i, m, ch);
      }
    }
  }

  lemma {:induction false} KnownForEver(tr: seq<State>, acts: seq<Action>, i: nat, m: nat, ch: nat)
    requires Run(tr, acts) && i <= m < |tr| && ch in tr[i].subscribers
    ensures ch in tr[m].polls
  {
    if i == m {
      ReachableInv(tr, acts, i);
    } else {
      KnownForEver(tr, acts, i, m - 1, ch);
      assert StepAt(tr, acts, m - 1);
    }
  }

  /** When nothing is due any more, some notification since the broadcast has reached every channel
      that was registered from the broadcast on. */
  lemma QuiescenceMeansSignalled(tr: seq<State>, acts: seq<Action>, i: nat, j: nat, ch: nat) returns (m: nat)
    requires Run(tr, acts) && i < j < |tr| && Broadcasts(acts[i])
    requires ch in tr[i].subscribers && ch in tr[j].subscribers
    requires tr[j].armed.None? && tr[j].callbacks == 0
    ensures i <= m < j && NotifiesAt(tr, acts, m) && ch in tr[m].subscribers && ch in tr[m + 1].signalled
  {
    NoLostBroadcast(tr, acts, i, j);
    m :| i <= m < j && NotifiesAt(tr, acts, m);
    RegisteredThroughout(tr, acts, i, m, j, ch);
    NotificationSignals(tr, acts, m);
  }

  /** A long poll never sleeps through a change: when no broadcast is owed and no notification is
      due, a registered poll that sleeps on an old version has its wake-up signal. */
  lemma NoPollSleepsThrough(tr: seq<State>, acts: seq<Action>, j: nat, ch: nat)
    requires Run(tr, acts) && j < |tr|
    requires tr[j].owed == 0 && tr[j].armed.None? && tr[j].callbacks == 0
    requires ch in tr[j].polls && ch in tr[j].subscribers && tr[j].polls[ch].Asleep? && tr[j].polls[ch].client != tr[j].version
    ensures ch in tr[j].signalled
  {
    ReachableInv(tr, acts, j);
  }

  /** A poll sleeps on the version that its client came with, so a client that is behind when the
      version is read does not fall asleep. */
  lemma {:induction false} SleepsOnClientVersion(tr: seq<State>, acts: seq<Action>, i: nat, j: nat, ch: nat, client: int)
    requires Run(tr, acts) && i <= j < |tr| && ch in tr[i].polls && tr[i].polls[ch] == Subscribed(client)
    ensures ch in tr[j].polls && tr[j].polls[ch] in {Subscribed(client), Asleep(client), Awake}
    ensures j < |acts| && acts[j] == ReadVersion(ch) && tr[j].version != client ==> ch in tr[j + 1].polls && !tr[j + 1].polls[ch].Asleep?
    decreases j
  {
    if i < j {
      SleepsOnClientVersion(tr, acts, i, j - 1, ch, client);
      assert StepAt(tr, acts, j - 1);
    }
    if j < |acts| {
      assert StepAt(tr, acts, j);
    }
  }

  /** No registered channel is closed, so no send targets a closed channel. */
  lemma NoSendOnClosedChannel(tr: seq<State>, acts: seq<Action>, m: nat)
    requires Run(tr, acts) && m < |acts|
    ensures tr[m].subscribers !! tr[m].closed
    ensures forall ch :: ch in tr[m + 1].signalled && ch !in tr[m].signalled ==> ch !in tr[m].closed
  {
    ReachableInv(tr, acts, m);
    assert StepAt(tr, acts, m);
  }

  /** Successive timer firings of a run are at least one window apart, so firings i and j are at
      least j - i windows apart. */
  lemma FiresSpaced(tr: seq<State>, acts: seq<Action>, n: nat, i: nat, j: nat)
    requires Run(tr, acts) && n < |tr| && tr[n].window > 0 && i <= j < |tr[n].fires|
    ensures tr[n].fires[j] - tr[n].fires[i] >= (j - i) * tr[n].window
  {
    ReachableInv(tr, acts, n);
    GapsAddUp(tr[n].fires, tr[n].window, i, j);
  }

  lemma {:induction false} GapsAddUp(fires: seq<Time>, w: Time, i: nat, j: nat)
    requires w > 0 && i <= j < |fires|
    requires Spaced(fires, w)
    ensures fires[j] - fires[i] >= (j - i) * w
  {
    if i < j {
      GapsAddUp(fires, w, i, j - 1);
      assert ApartAt(fires, w, j - 1);
      assert (j - i) * w == (j - 1 - i) * w + w;
    }
  }

  /** Rate bound: with window w > 0, firings i to j that lie within a span T number at most
      T / w + 1. */
  lemma CoalescingRate(tr: seq<State>, acts: seq<Action>, n: nat, i: nat, j: nat, span: Time)
    requires Run(tr, acts) && n < |tr| && tr[n].window > 0
    requires i <= j < |tr[n].fires| && tr[n].fires[j] - tr[n].fires[i] <= span
    ensures j - i + 1 <= span / tr[n].window + 1
  {
    FiresSpaced(tr, acts, n, i, j);
    QuotientBound(j - i, tr[n].window, span);
  }

  lemma QuotientBound(n: nat, w: int, span: int)
    requires w > 0 && n * w <= span
    ensures n <= span / w
  {
    var q, r := span / w, span % w;
    assert span == q * w + r;
    if n > q {
      MulMonotone(q + 1, n, w);
      MulSuccessor(q, w);
    }
  }

  lemma MulSuccessor(q: int, w: int)
    ensures (q + 1) * w == q * w + w
  {
  }

  lemma {:induction false} MulMonotone(a: int, b: int, w: int)
    requires a <= b && w > 0
    ensures a * w <= b * w
    decreases b - a
  {
    if a < b {
      MulMonotone(a, b - 1, w);
      MulSuccessor(b - 1, w);
    }
  }
}
