/** One network's crawler as `spawn_network_crawler` wires it: the observer and the refresh loop share one
    tip, and both die with the process. The observer's raise is the cache's confirmation. */
module SeederRun {
  import opened Prelude
  import opened Addresses
  import opened ActivationTarget
  import opened ActivationGate
  import opened Servability
  import opened AddressCache
  import opened DurableRecord
  import FloorHistory
  import Observer = ActivationProtocol
  import Cache = CacheRefresh

  datatype State = State(observer: Observer.State, refresh: Cache.Refresh, published: Option<Cache.Work>)

  datatype Event = ObserverStep(observer: Observer.Event) | CacheStep(cache: Cache.Event)

  /** The tip of the live process; a dead one has none, and nothing below asks for it. */
  ghost function TipOf(s: Observer.State): u32 {
    if s.process.Alive? then s.process.life.tip else 0
  }

  /** What the cache of a live process sees: the observer's tip and its own refresh. */
  ghost function View(s: State): Cache.State {
    Cache.State(s.observer.network, TipOf(s.observer), s.refresh, s.published)
  }

  /** A process starts with an idle cache and takes it along when it dies. */
  ghost predicate BeginsOrEnds(e: Observer.Event) { e.Start? || e.Crash? }

  /** Every step is the observer's or the cache's; the cache cannot confirm on its own. */
  ghost predicate StepsTo(s: State, e: Event, t: State) {
    match e
    case ObserverStep(o) =>
      && Observer.StepsTo(s.observer, o, t.observer)
      && t.refresh == (if BeginsOrEnds(o) then Cache.Sleeping else s.refresh)
      && t.published == (if BeginsOrEnds(o) then None else s.published)
    case CacheStep(c) =>
      && s.observer.process.Alive? && !c.Confirm?
      && t.observer == s.observer
      && Cache.StepsTo(View(s), c, View(t))
  }

  ghost predicate IsRun(states: seq<State>, events: seq<Event>) {
    && |states| == |events| + 1
    && states[0].observer.process.Dead?
    && forall k {:trigger events[k]} | 0 <= k < |events| :: StepsTo(states[k], events[k], states[k + 1])
  }

  // The observer's part of a run

  ghost function ObserverEvents(events: seq<Event>, n: nat): seq<Observer.Event>
    requires n <= |events|
  {
    if n == 0 then []
    else match events[n - 1]
         case ObserverStep(o) => ObserverEvents(events, n - 1) + [o]
         case CacheStep(_) => ObserverEvents(events, n - 1)
  }

  ghost function ObserverStates(states: seq<State>, events: seq<Event>, n: nat): seq<Observer.State>
    requires n <= |events| && |states| == |events| + 1
  {
    if n == 0 then [states[0].observer]
    else match events[n - 1]
         case ObserverStep(_) => ObserverStates(states, events, n - 1) + [states[n].observer]
         case CacheStep(_) => ObserverStates(states, events, n - 1)
  }

  /** Without the cache's steps a run is a run of the activation protocol, ending in the same state. */
  lemma {:induction false} ObserverPartIsRun(states: seq<State>, events: seq<Event>, n: nat)
    requires IsRun(states, events) && n <= |events|
    ensures var os, oe := ObserverStates(states, events, n), ObserverEvents(events, n);
            Observer.IsRun(os, oe) && os[|oe|] == states[n].observer
  {
    if n > 0 {
      ObserverPartIsRun(states, events, n - 1);
      assert StepsTo(states[n - 1], events[n - 1], states[n]);
      var os, oe := ObserverStates(states, events, n - 1), ObserverEvents(events, n - 1);
      if events[n - 1].ObserverStep? {
        AppendedRun(os, oe, events[n - 1].observer, states[n].observer);
      }
    }
  }

  lemma AppendedRun(states: seq<Observer.State>, events: seq<Observer.Event>, e: Observer.Event, t: Observer.State)
    requires Observer.IsRun(states, events) && Observer.StepsTo(states[|events|], e, t)
    ensures Observer.IsRun(states + [t], events + [e])
  {
    forall k | 0 <= k < |events| + 1
      ensures Observer.StepsTo((states + [t])[k], (events + [e])[k], (states + [t])[k + 1])
    {
      if k < |events| {
        assert Observer.StepsTo(states[k], events[k], states[k + 1]);
      }
    }
  }

  // The cache's part of the current life

  /** What the cache of the process alive after `n` steps went through since that process started. */
  ghost function CacheEvents(events: seq<Event>, n: nat): seq<Cache.Event>
    requires n <= |events|
  {
    if n == 0 then []
    else match events[n - 1]
         case ObserverStep(o) =>
           if o.Start? then []
           else if o.Raise? then CacheEvents(events, n - 1) + [Cache.Confirm]
           else CacheEvents(events, n - 1)
         case CacheStep(c) => CacheEvents(events, n - 1) + [c]
  }

  ghost function CacheStates(states: seq<State>, events: seq<Event>, n: nat): seq<Cache.State>
    requires n <= |events| && |states| == |events| + 1
  {
    if n == 0 then []
    else match events[n - 1]
         case ObserverStep(o) =>
           if o.Start? then [View(states[n])]
           else if o.Raise? then CacheStates(states, events, n - 1) + [View(states[n])]
           else CacheStates(states, events, n - 1)
         case CacheStep(_) => CacheStates(states, events, n - 1) + [View(states[n])]
  }

  /** How one step of the whole looks to the cache of a process that lives through it. */
  lemma CacheSees(s: State, e: Event, t: State)
    requires StepsTo(s, e, t) && t.observer.process.Alive?
    requires !(e.ObserverStep? && e.observer.Start?)
    ensures s.observer.process.Alive?
    ensures if e.CacheStep? then Cache.StepsTo(View(s), e.cache, View(t))
            else if e.observer.Raise? then Cache.StepsTo(View(s), Cache.Confirm, View(t))
            else View(t) == View(s)
  {
  }

  lemma StartedCacheIsIdle(s: State, e: Event, t: State)
    requires StepsTo(s, e, t) && e.ObserverStep? && e.observer.Start?
    ensures Cache.IsRun([View(t)], [])
  {
  }

  /** Since its process started, the cache has gone through a run of the refresh machine, in which each
      confirmation is a raise by the observer, and which ends in what it now sees. */
  lemma {:induction false} CachePartIsRun(states: seq<State>, events: seq<Event>, n: nat)
    requires IsRun(states, events) && n <= |events| && states[n].observer.process.Alive?
    ensures var cs, ce := CacheStates(states, events, n), CacheEvents(events, n);
            Cache.IsRun(cs, ce) && cs[|ce|] == View(states[n])
  {
    assert StepsTo(states[n - 1], events[n - 1], states[n]);
    if events[n - 1].ObserverStep? && events[n - 1].observer.Start? {
      StartedCacheIsIdle(states[n - 1], events[n - 1], states[n]);
    } else {
      CacheSees(states[n - 1], events[n - 1], states[n]);
      CachePartIsRun(states, events, n - 1);
      var cs, ce := CacheStates(states, events, n - 1), CacheEvents(events, n - 1);
      if events[n - 1].CacheStep? {
        AppendedCacheRun(cs, ce, events[n - 1].cache, View(states[n]));
      } else if events[n - 1].observer.Raise? {
        AppendedCacheRun(cs, ce, Cache.Confirm, View(states[n]));
      }
    }
  }

  lemma AppendedCacheRun(states: seq<Cache.State>, events: seq<Cache.Event>, e: Cache.Event, t: Cache.State)
    requires Cache.IsRun(states, events) && Cache.StepsTo(states[|events|], e, t)
    ensures Cache.IsRun(states + [t], events + [e])
  {
    forall k | 0 <= k < |events| + 1
      ensures Cache.StepsTo((states + [t])[k], (events + [e])[k], (states + [t])[k + 1])
    {
      if k < |events| {
        assert Cache.StepsTo(states[k], events[k], states[k + 1]);
      }
    }
  }

  /** The process alive after `m` steps does not die before step `n`. */
  ghost predicate LivesThrough(events: seq<Event>, m: nat, n: nat)
    requires m <= n <= |events|
  {
    forall k | m <= k < n :: !(events[k].ObserverStep? && events[k].observer.Crash?)
  }

  lemma StepInLife(s: State, e: Event, t: State)
    requires StepsTo(s, e, t) && s.observer.process.Alive?
    requires !(e.ObserverStep? && e.observer.Crash?)
    ensures t.observer.process.Alive? && !(e.ObserverStep? && e.observer.Start?)
    ensures t.observer.network == s.observer.network && t.observer.lives == s.observer.lives
  {
  }

  /** Within a life the cache's history only grows. */
  lemma {:induction false} LifeGrows(states: seq<State>, events: seq<Event>, m: nat, n: nat)
    requires IsRun(states, events) && m <= n <= |events|
    requires states[m].observer.process.Alive? && LivesThrough(events, m, n)
    ensures states[n].observer.process.Alive? && states[n].observer.network == states[m].observer.network
    ensures states[n].observer.lives == states[m].observer.lives
    ensures CacheEvents(events, m) <= CacheEvents(events, n)
    decreases n
  {
    if m < n {
      LifeGrows(states, events, m, n - 1);
      StepInLife(states[n - 1], events[n - 1], states[n]);
    }
  }

  /** The place that the step `k` has in the cache's history. */
  lemma PlaceInLife(states: seq<State>, events: seq<Event>, k: nat, n: nat)
    requires IsRun(states, events) && k < n <= |events|
    requires states[k].observer.process.Alive? && LivesThrough(events, k, n)
    requires events[k].CacheStep? || events[k].observer.Raise?
    ensures var place, ce := |CacheEvents(events, k)|, CacheEvents(events, n);
            && |CacheEvents(events, k + 1)| == place + 1 <= |ce|
            && ce[place] == if events[k].CacheStep? then events[k].cache else Cache.Confirm
  {
    LifeGrows(states, events, k, k + 1);
    LifeGrows(states, events, k + 1, n);
    assert CacheEvents(events, k + 1)[|CacheEvents(events, k)|] == CacheEvents(events, n)[|CacheEvents(events, k)|];
  }

  /** What the DNS handler reads after `i` steps. */
  ghost function Feed(states: seq<State>, events: seq<Event>, i: nat): ServablePeers
    requires IsRun(states, events) && i <= |events| && states[i].observer.process.Alive?
  {
    CachePartIsRun(states, events, i);
    var cs, ce := CacheStates(states, events, i), CacheEvents(events, i);
    Cache.FeedAt(cs, ce, |ce|)
  }

  ghost predicate HasRecordBehind(states: seq<State>, events: seq<Event>, i: nat)
    requires |states| == |events| + 1 && i <= |events|
  {
    var os, oe := ObserverStates(states, events, i), ObserverEvents(events, i);
    |os| == |oe| + 1 && HasDurableCause(os, oe, |oe|)
  }

  /** The entry behind this address, in the book of the published refresh, met the target version. */
  ghost predicate MetTarget(s: State, a: PeerAddr) {
    && s.published.Some?
    && exists meta :: meta in s.published.value.book && meta.addr == a
                      && Cache.MeetsTarget(s.observer.network, meta)
  }

  /** No snapshot at the raised floor without a record: whenever the published snapshot was computed at a
      positive activation height, the record had been loaded at this process's start, or was on disk in
      this life before the tip rose. */
  lemma RaisedSnapshotHasRecord(states: seq<State>, events: seq<Event>, i: nat)
    requires IsRun(states, events) && i <= |events| && states[i].observer.process.Alive?
    requires states[i].published.Some?
    requires states[i].published.value.tip >= states[i].observer.network.activationHeight > 0
    ensures HasRecordBehind(states, events, i)
  {
    CachePartIsRun(states, events, i);
    Cache.RunKeepsInvariant(CacheStates(states, events, i), CacheEvents(events, i), |CacheEvents(events, i)|);
    ObserverPartIsRun(states, events, i);
    DurableBeforeVisible(ObserverStates(states, events, i), ObserverEvents(events, i), |ObserverEvents(events, i)|);
  }

  /** A raise and two later publications, as the cache's own history has them. */
  lemma RaiseInLife(states: seq<State>, events: seq<Event>, raise: nat, first: nat, second: nat, i: nat)
    returns (c: nat, p: nat, q: nat)
    requires IsRun(states, events) && raise < first < second < i <= |events|
    requires events[raise] == ObserverStep(Observer.Raise) && LivesThrough(events, raise, i)
    requires events[first] == CacheStep(Cache.Publish) && events[second] == CacheStep(Cache.Publish)
    ensures states[i].observer.process.Alive?
    ensures states[i].observer.network == states[raise].observer.network
    ensures var ce := CacheEvents(events, i);
            && c < p < q < |ce|
            && ce[c].Confirm? && ce[p].Publish? && ce[q].Publish?
  {
    assert StepsTo(states[raise], events[raise], states[raise + 1]);
    LifeGrows(states, events, raise, i);
    LifeGrows(states, events, raise, first);
    LifeGrows(states, events, first, second);
    PlaceInLife(states, events, raise, i);
    PlaceInLife(states, events, raise, first);
    PlaceInLife(states, events, first, i);
    PlaceInLife(states, events, first, second);
    PlaceInLife(states, events, second, i);
    c, p, q := |CacheEvents(events, raise)|, |CacheEvents(events, first)|, |CacheEvents(events, second)|;
  }

  /** From the second publication after the observer's raise on, for as long as the process lives, the
      published snapshot is one of the activation height, and the record that justifies this floor was
      durable before the tip rose. */
  lemma RaisedSnapshotIsServed(
      states: seq<State>, events: seq<Event>, raise: nat, first: nat, second: nat, i: nat)
    requires IsRun(states, events) && raise < first < second < i <= |events|
    requires events[raise] == ObserverStep(Observer.Raise) && LivesThrough(events, raise, i)
    requires events[first] == CacheStep(Cache.Publish) && events[second] == CacheStep(Cache.Publish)
    requires states[raise].observer.network.activationHeight > 0
    ensures states[i].observer.process.Alive? && states[i].published.Some?
    ensures states[i].published.value.tip == states[i].observer.network.activationHeight
    ensures HasRecordBehind(states, events, i)
  {
    var c, p, q := RaiseInLife(states, events, raise, first, second, i);
    CachePartIsRun(states, events, i);
    var cs, ce := CacheStates(states, events, i), CacheEvents(events, i);
    Cache.PublicationSettles(cs, ce, c, p, |ce|);
    RaisedSnapshotHasRecord(states, events, i);
  }

  /** So from then on every address the cache gives out belongs to an entry that met the target
      version. */
  lemma RaiseReachesAnswers(
      states: seq<State>, events: seq<Event>, raise: nat, first: nat, second: nat, i: nat, a: PeerAddr)
    requires IsRun(states, events) && raise < first < second < i <= |events|
    requires events[raise] == ObserverStep(Observer.Raise) && LivesThrough(events, raise, i)
    requires events[first] == CacheStep(Cache.Publish) && events[second] == CacheStep(Cache.Publish)
    ensures states[i].observer.process.Alive?
    ensures a in Feed(states, events, i).ipv4 || a in Feed(states, events, i).ipv6 ==> MetTarget(states[i], a)
  {
    var c, p, q := RaiseInLife(states, events, raise, first, second, i);
    CachePartIsRun(states, events, i);
    var cs, ce := CacheStates(states, events, i), CacheEvents(events, i);
    Cache.AtMostOneStaleSnapshot(cs, ce, c, p, q, |ce|, true, a);
    Cache.AtMostOneStaleSnapshot(cs, ce, c, p, q, |ce|, false, a);
  }

  const READY_SWEEP := Observer.Sweep(SweepEvidence(12, 12))

  /** A refresh that reads the tip at the beginning of a process and publishes after its raise. */
  ghost function RefreshAcrossRaise(book: seq<PeerMeta>, shuffles: Shuffles): seq<Event> {
    [ObserverStep(Observer.Start(true)), CacheStep(Cache.ReadTip),
     ObserverStep(READY_SWEEP), ObserverStep(READY_SWEEP), ObserverStep(READY_SWEEP),
     ObserverStep(Observer.WriteSucceeds), ObserverStep(Observer.Raise),
     CacheStep(Cache.Compute(book, shuffles)), CacheStep(Cache.Publish)]
  }

  /** The quickest way to a raise, as the cache's tip sees it. */
  lemma QuickestRaise(network: Network) returns (os: seq<Observer.State>)
    requires network.activationHeight > 0
    ensures |os| == 7 && os[0].process.Dead?
    ensures Observer.StepsTo(os[0], Observer.Start(true), os[1])
    ensures Observer.StepsTo(os[1], READY_SWEEP, os[2]) && Observer.StepsTo(os[2], READY_SWEEP, os[3])
    ensures Observer.StepsTo(os[3], READY_SWEEP, os[4])
    ensures Observer.StepsTo(os[4], Observer.WriteSucceeds, os[5]) && Observer.StepsTo(os[5], Observer.Raise, os[6])
    ensures forall k | 0 <= k < 7 :: os[k].network == network
    ensures forall k | 1 <= k < 7 :: os[k].process.Alive?
    ensures TipOf(os[1]) == Latest(network).preActivationHeight && TipOf(os[6]) == network.activationHeight
  {
    var o0 := Observer.State(network, true, None, Observer.Dead, 0);
    var o1 := Observer.Next(o0, Observer.Start(true));
    var o2 := Observer.Next(o1, READY_SWEEP);
    var o3 := Observer.Next(o2, READY_SWEEP);
    var o4 := Observer.Next(o3, READY_SWEEP);
    var o5 := Observer.Next(o4, Observer.WriteSucceeds);
    var o6 := Observer.Next(o5, Observer.Raise);
    os := [o0, o1, o2, o3, o4, o5, o6];
  }

  /** The second publication is needed: three qualifying sweeps and a raise can fall into one refresh,
      which then publishes at the old floor. */
  lemma FirstPublicationCanBeStale(network: Network, book: seq<PeerMeta>, shuffles: Shuffles)
    requires network.activationHeight > 0
    requires Cache.IsSound(network, Cache.Work(Latest(network).preActivationHeight, book, shuffles))
    ensures exists states: seq<State> ::
              && IsRun(states, RefreshAcrossRaise(book, shuffles))
              && states[0].observer.network == network
              && TipOf(states[9].observer) == network.activationHeight
              && states[9].published == Some(Cache.Work(Latest(network).preActivationHeight, book, shuffles))
  {
    var pre := Latest(network).preActivationHeight;
    var o := QuickestRaise(network);
    var w := Cache.Work(pre, book, shuffles);
    var states := [
      State(o[0], Cache.Sleeping, None), State(o[1], Cache.Sleeping, None), State(o[1], Cache.TipRead(pre), None),
      State(o[2], Cache.TipRead(pre), None), State(o[3], Cache.TipRead(pre), None),
      State(o[4], Cache.TipRead(pre), None), State(o[5], Cache.TipRead(pre), None),
      State(o[6], Cache.TipRead(pre), None),
      State(o[6], Cache.Computed(w), None), State(o[6], Cache.Sleeping, Some(w))];
    assert IsRun(states, RefreshAcrossRaise(book, shuffles));
  }

  /** A process that starts with its record gives out target-version peers only, from its first
      publication on: the one stale snapshot of a raise does not occur on a restart. */
  lemma ConfirmedStartServesTarget(states: seq<State>, events: seq<Event>, start: nat, i: nat, a: PeerAddr)
    requires IsRun(states, events) && start < i <= |events|
    requires events[start].ObserverStep? && events[start].observer.Start?
    requires Observer.Loads(states[start].observer, events[start].observer.readSucceeds)
    requires LivesThrough(events, start + 1, i)
    ensures states[i].observer.process.Alive?
    ensures a in Feed(states, events, i).ipv4 || a in Feed(states, events, i).ipv6 ==> MetTarget(states[i], a)
  {
    assert StepsTo(states[start], events[start], states[start + 1]);
    LifeGrows(states, events, start + 1, i);
    FirstViewOfLife(states, events, start, i);
    CachePartIsRun(states, events, i);
    var cs, ce := CacheStates(states, events, i), CacheEvents(events, i);
    Cache.ConfirmedFromTheStart(cs, ce, |ce|, true, a);
    Cache.ConfirmedFromTheStart(cs, ce, |ce|, false, a);
  }

  lemma {:induction false} FirstViewOfLife(states: seq<State>, events: seq<Event>, start: nat, i: nat)
    requires IsRun(states, events) && start < i <= |events|
    requires events[start].ObserverStep? && events[start].observer.Start?
    requires LivesThrough(events, start + 1, i)
    ensures |CacheStates(states, events, i)| > 0
    ensures CacheStates(states, events, i)[0] == View(states[start + 1])
    decreases i
  {
    assert StepsTo(states[start], events[start], states[start + 1]);
    if start + 1 < i {
      FirstViewOfLife(states, events, start, i - 1);
      LifeGrows(states, events, start + 1, i - 1);
      assert StepsTo(states[i - 1], events[i - 1], states[i]);
    }
  }

  // The floor behind the answers, over whole histories

  /** The operator keeps the cache volume, as `FloorNeverDrops` has it. */
  ghost predicate KeepsCacheThroughout(states: seq<State>, events: seq<Event>)
    requires |states| == |events| + 1
  {
    forall k {:trigger events[k]} | 0 <= k < |events| && events[k].ObserverStep? ::
      FloorHistory.KeepsCache(states[k].observer, events[k].observer)
  }

  /** The floor of the tip that the published refresh had read. */
  ghost function ServedFloor(s: State): u32
    requires s.published.Some?
  {
    s.observer.network.minRemote(s.published.value.tip)
  }

  ghost predicate IsAtLeast(network: Network, tip: u32, floor: u32) { floor <= network.minRemote(tip) }

  /** `floor` is upheld by the tip now and after a restart, and by whatever is published or in flight. */
  ghost predicate ServesAtLeast(s: State, floor: u32) {
    && FloorHistory.Upholds(s.observer, floor)
    && (s.observer.process.Alive? ==>
          var network := s.observer.network;
          && (s.refresh.TipRead? ==> IsAtLeast(network, s.refresh.tip, floor))
          && (s.refresh.Computed? ==> IsAtLeast(network, s.refresh.work.tip, floor))
          && (s.published.Some? ==> IsAtLeast(network, s.published.value.tip, floor)))
  }

  lemma {:induction false} RunIsBacked(states: seq<State>, events: seq<Event>, i: nat)
    requires IsRun(states, events) && i <= |events|
    requires IsMonotone(states[0].observer.network) && KeepsCacheThroughout(states, events)
    ensures FloorHistory.IsBacked(states[i].observer)
  {
    if i > 0 {
      RunIsBacked(states, events, i - 1);
      assert StepsTo(states[i - 1], events[i - 1], states[i]);
      if events[i - 1].ObserverStep? {
        FloorHistory.StepStaysBacked(states[i - 1].observer, events[i - 1].observer, states[i].observer);
      }
    }
  }

  lemma ObserverStepServesAtLeast(s: State, e: Observer.Event, t: State, floor: u32)
    requires StepsTo(s, ObserverStep(e), t) && FloorHistory.IsBacked(s.observer)
    requires FloorHistory.KeepsCache(s.observer, e) && ServesAtLeast(s, floor)
    ensures ServesAtLeast(t, floor)
  {
    FloorHistory.StepUpholds(s.observer, e, t.observer, floor);
    if t.observer.process.Alive? && !e.Start? {
      CacheSees(s, ObserverStep(e), t);
    }
  }

  lemma CacheStepServesAtLeast(s: State, c: Cache.Event, t: State, floor: u32)
    requires StepsTo(s, CacheStep(c), t) && ServesAtLeast(s, floor)
    ensures ServesAtLeast(t, floor)
  {
    assert IsAtLeast(s.observer.network, s.observer.process.life.tip, floor);
  }

  lemma {:induction false} RunServesAtLeast(states: seq<State>, events: seq<Event>, i: nat, j: nat, floor: u32)
    requires IsRun(states, events) && i <= j <= |events|
    requires IsMonotone(states[0].observer.network) && KeepsCacheThroughout(states, events)
    requires ServesAtLeast(states[i], floor)
    ensures ServesAtLeast(states[j], floor)
    decreases j
  {
    if i < j {
      RunServesAtLeast(states, events, i, j - 1, floor);
      RunIsBacked(states, events, j - 1);
      assert StepsTo(states[j - 1], events[j - 1], states[j]);
      match events[j - 1]
      case ObserverStep(e) => ObserverStepServesAtLeast(states[j - 1], e, states[j], floor);
      case CacheStep(c) => CacheStepServesAtLeast(states[j - 1], c, states[j], floor);
    }
  }

  lemma PublishedFloorIsServed(states: seq<State>, events: seq<Event>, i: nat)
    requires IsRun(states, events) && i <= |events|
    requires IsMonotone(states[0].observer.network) && KeepsCacheThroughout(states, events)
    requires states[i].observer.process.Alive? && states[i].published.Some?
    ensures ServesAtLeast(states[i], ServedFloor(states[i]))
  {
    RunIsBacked(states, events, i);
    CachePartIsRun(states, events, i);
    var cs, ce := CacheStates(states, events, i), CacheEvents(events, i);
    Cache.RunKeepsInvariant(cs, ce, |ce|);
    Cache.RunKeepsTipsOrdered(cs, ce, |ce|);
    var s, tip := states[i], states[i].published.value.tip;
    FloorHistory.LiveFloorIsAtMostRestartFloor(s.observer);
    assert IsInOrder(s.observer.network, tip, s.observer.process.life.tip);
    if s.refresh.TipRead? {
      assert IsInOrder(s.observer.network, tip, s.refresh.tip);
    }
    if s.refresh.Computed? {
      assert IsInOrder(s.observer.network, tip, s.refresh.work.tip);
    }
  }

  /** The floor behind the answers never drops either: not from one publication to the next, not across
      crashes and restarts, and not when a newer build takes over. So every address given out later
      belongs to an entry that met every floor served earlier. */
  lemma ServedFloorNeverDrops(states: seq<State>, events: seq<Event>, i: nat, j: nat, v4: bool, a: PeerAddr)
    requires IsRun(states, events) && i <= j <= |events|
    requires IsMonotone(states[0].observer.network) && KeepsCacheThroughout(states, events)
    requires states[i].observer.process.Alive? && states[i].published.Some?
    requires states[j].observer.process.Alive? && states[j].published.Some?
    ensures ServedFloor(states[i]) <= ServedFloor(states[j])
    ensures a in (if v4 then Feed(states, events, j).ipv4 else Feed(states, events, j).ipv6) ==>
              exists meta :: meta in states[j].published.value.book && meta.addr == a
                             && VersionAtLeast(meta, ServedFloor(states[i]))
  {
    PublishedFloorIsServed(states, events, i);
    RunServesAtLeast(states, events, i, j, ServedFloor(states[i]));
    CachePartIsRun(states, events, j);
    var cs, ce := CacheStates(states, events, j), CacheEvents(events, j);
    Cache.AnswersAreVouched(cs, ce, |ce|, v4);
    if a in Cache.Answer(cs[|ce|], v4) {
      var network, w := states[j].observer.network, states[j].published.value;
      var meta :| meta in w.book && meta.addr == a && a.ip.V4? == v4
                  && MayBeServed(meta, network.defaultPort, network.minRemote(w.tip));
      assert VersionAtLeast(meta, ServedFloor(states[i]));
    }
  }
}
