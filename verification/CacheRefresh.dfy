/** The refresh task interleaved with the activation observer and with DNS queries. A refresh reads the
    tip first, locks and classifies the book later, and publishes later still; confirmations and
    queries fall anywhere in between. */
module CacheRefresh {
  import opened Prelude
  import opened Addresses
  import opened ActivationTarget
  import opened ChainTip
  import opened Servability
  import opened AddressCache
  import opened PreferredFill

  // The refresh loop's own code

  /** The watch channel the DNS handler reads. */
  class PeersWatch {
    var peers: ServablePeers

    constructor ()
      ensures peers == ServablePeers([], [])
    {
      peers := ServablePeers([], []);
    }
  }

  /** One pass of the refresh loop, undisturbed. */
  method RefreshOnce(network: Network, tip: SeederChainTip, watch: PeersWatch,
                     book: seq<PeerMeta>, shuffles: Shuffles)
    requires ValidShuffles(book, CacheFloors(network, tip.cell.height), shuffles)
    modifies watch
    ensures watch.peers == Snapshot(book, CacheFloors(network, tip.cell.height), shuffles)
  {
    var height := tip.BestTipHeight();
    var peers, servable4, servable6, unservable :=
      ComputeServablePeers(book, CacheFloors(network, height), shuffles);
    watch.peers := peers;
  }

  // Interleavings

  /** One refresh: the tip it read, and the book and shuffles it worked on. */
  datatype Work = Work(tip: u32, book: seq<PeerMeta>, shuffles: Shuffles)

  datatype Refresh = Sleeping | TipRead(tip: u32) | Computed(work: Work)

  datatype State = State(network: Network, tip: u32, refresh: Refresh, published: Option<Work>)

  datatype Event =
    | ReadTip
    | Compute(book: seq<PeerMeta>, shuffles: Shuffles)
    | Publish
    | Confirm
    | Query(v4: bool)

  ghost predicate IsSound(network: Network, w: Work) {
    ValidShuffles(w.book, CacheFloors(network, w.tip), w.shuffles)
  }

  ghost function SnapshotOf(network: Network, w: Work): ServablePeers
    requires IsSound(network, w)
  {
    Snapshot(w.book, CacheFloors(network, w.tip), w.shuffles)
  }

  ghost predicate Enabled(s: State, e: Event) {
    match e
    case ReadTip => s.refresh.Sleeping?
    case Compute(book, shuffles) =>
      s.refresh.TipRead? && IsSound(s.network, Work(s.refresh.tip, book, shuffles))
    case Publish => s.refresh.Computed?
    case Confirm => true
    case Query(_) => true
  }

  ghost function Next(s: State, e: Event): State
    requires Enabled(s, e)
  {
    match e
    case ReadTip => s.(refresh := TipRead(s.tip))
    case Compute(book, shuffles) => s.(refresh := Computed(Work(s.refresh.tip, book, shuffles)))
    case Publish => s.(published := Some(s.refresh.work), refresh := Sleeping)
    case Confirm => s.(tip := Max(s.tip, s.network.activationHeight))
    case Query(_) => s
  }

  ghost predicate StepsTo(s: State, e: Event, t: State) { Enabled(s, e) && t == Next(s, e) }

  /** A run of the refresh loop from its start, whatever the tip stood at. */
  ghost predicate IsRun(states: seq<State>, events: seq<Event>) {
    && |states| == |events| + 1
    && states[0].refresh == Sleeping && states[0].published == None
    && states[0].tip <= states[0].network.activationHeight
    && forall k {:trigger events[k]} | 0 <= k < |events| :: StepsTo(states[k], events[k], states[k + 1])
  }

  ghost predicate Invariant(s: State) {
    && s.tip <= s.network.activationHeight
    && (s.refresh.TipRead? ==> s.refresh.tip <= s.tip)
    && (s.refresh.Computed? ==> IsSound(s.network, s.refresh.work) && s.refresh.work.tip <= s.tip)
    && (s.published.Some? ==> IsSound(s.network, s.published.value) && s.published.value.tip <= s.tip)
  }

  lemma {:induction false} RunKeepsInvariant(states: seq<State>, events: seq<Event>, i: nat)
    requires IsRun(states, events) && i <= |events|
    ensures Invariant(states[i]) && states[i].network == states[0].network
  {
    if i > 0 {
      RunKeepsInvariant(states, events, i - 1);
      assert StepsTo(states[i - 1], events[i - 1], states[i]);
    }
  }

  /** What a query reads: one family of the latest snapshot. */
  ghost function Answer(s: State, v4: bool): seq<PeerAddr>
    requires Invariant(s)
  {
    match s.published
    case None => []
    case Some(w) => if v4 then SnapshotOf(s.network, w).ipv4 else SnapshotOf(s.network, w).ipv6
  }

  /** What the watch channel holds after `i` steps: both families of the latest snapshot. */
  ghost function FeedAt(states: seq<State>, events: seq<Event>, i: nat): ServablePeers
    requires IsRun(states, events) && i <= |events|
  {
    RunKeepsInvariant(states, events, i);
    ServablePeers(Answer(states[i], true), Answer(states[i], false))
  }

  /** The entry behind an answered address: in the book that refresh locked, of the family asked for,
      and all that a served peer must be at the floor of the tip that refresh read. */
  ghost predicate IsVouched(network: Network, w: Work, v4: bool, a: PeerAddr) {
    exists meta ::
      meta in w.book && meta.addr == a && a.ip.V4? == v4
      && MayBeServed(meta, network.defaultPort, network.minRemote(w.tip))
  }

  /** The entry negotiated the version required from the activation on, or a later one. */
  ghost predicate MeetsTarget(network: Network, meta: PeerMeta) {
    meta.negotiatedVersion.Some? && meta.negotiatedVersion.value >= network.minRemote(network.activationHeight)
  }

  lemma TierIsVouched(network: Network, w: Work, v4: bool, atTarget: bool, a: PeerAddr)
    requires a in Tier(w.book, CacheFloors(network, w.tip), v4, atTarget)
    ensures IsVouched(network, w, v4, a)
  {
    var f := CacheFloors(network, w.tip);
    TierMember(w.book, f, v4, atTarget, a);
    var i :| 0 <= i < |w.book| && w.book[i].addr == a && BelongsTo(w.book[i], f, v4, atTarget);
    assert w.book[i] in w.book;
  }

  /** In every run every answer is at most 25 addresses of the right family, each vouched for by the
      refresh that published it, and none published before the first refresh. */
  lemma AnswersAreVouched(states: seq<State>, events: seq<Event>, i: nat, v4: bool)
    requires IsRun(states, events) && i <= |events|
    ensures Invariant(states[i])
    ensures states[i].published.None? ==> Answer(states[i], v4) == []
    ensures |Answer(states[i], v4)| <= 25
    ensures forall a | a in Answer(states[i], v4) ::
              states[i].published.Some? && IsVouched(states[i].network, states[i].published.value, v4, a)
  {
    RunKeepsInvariant(states, events, i);
    var s := states[i];
    if s.published.Some? {
      var w := s.published.value;
      var f := CacheFloors(s.network, w.tip);
      var target, fallback := Tier(w.book, f, v4, true), Tier(w.book, f, v4, false);
      forall a | a in Answer(s, v4) ensures IsVouched(s.network, w, v4, a) {
        assert a in target || a in fallback;
        TierIsVouched(s.network, w, v4, a in target, a);
      }
    }
  }

  /** From a confirmation on, the refresh in flight is the last that can publish at the old floor. */
  ghost predicate IsSettled(s: State) {
    && s.tip == s.network.activationHeight
    && (s.refresh.TipRead? ==> s.refresh.tip == s.network.activationHeight)
    && (s.refresh.Computed? ==> s.refresh.work.tip == s.network.activationHeight)
  }

  lemma {:induction false} ConfirmedTipStays(states: seq<State>, events: seq<Event>, c: nat, i: nat)
    requires IsRun(states, events) && c < i <= |events| && events[c].Confirm?
    ensures states[i].tip == states[i].network.activationHeight
    decreases i
  {
    RunKeepsInvariant(states, events, i - 1);
    assert StepsTo(states[i - 1], events[i - 1], states[i]);
    if i - 1 > c {
      ConfirmedTipStays(states, events, c, i - 1);
    }
  }

  lemma {:induction false} PublicationSettles(
      states: seq<State>, events: seq<Event>, c: nat, first: nat, i: nat)
    requires IsRun(states, events) && c < first < i <= |events|
    requires events[c].Confirm? && events[first].Publish?
    ensures IsSettled(states[i])
    ensures (exists k :: first < k < i && events[k].Publish?) ==>
              states[i].published.Some? && states[i].published.value.tip == states[i].network.activationHeight
    decreases i
  {
    ConfirmedTipStays(states, events, c, i);
    assert StepsTo(states[i - 1], events[i - 1], states[i]);
    if first < i - 1 {
      PublicationSettles(states, events, c, first, i - 1);
    } else {
      ConfirmedTipStays(states, events, c, first);
    }
  }

  /** After a confirmation at most one snapshot is published at an older floor: after the second
      publication, every answered address met the target version in the book that was locked. */
  lemma AtMostOneStaleSnapshot(
      states: seq<State>, events: seq<Event>, c: nat, first: nat, second: nat, i: nat, v4: bool, a: PeerAddr)
    requires IsRun(states, events) && c < first < second < i <= |events|
    requires events[c].Confirm? && events[first].Publish? && events[second].Publish?
    ensures Invariant(states[i]) && states[i].published.Some?
    ensures states[i].published.value.tip == states[i].network.activationHeight
    ensures a in Answer(states[i], v4) ==>
              exists meta :: meta in states[i].published.value.book && meta.addr == a
                             && MeetsTarget(states[i].network, meta)
  {
    PublicationSettles(states, events, c, first, i);
    AnswersAreVouched(states, events, i, v4);
    if a in Answer(states[i], v4) {
      VouchedAtActivation(states[i].network, states[i].published.value, v4, a);
    }
  }

  lemma {:induction false} NothingBelowTheFirstTip(states: seq<State>, events: seq<Event>, i: nat)
    requires IsRun(states, events) && i <= |events|
    ensures var s, tip := states[i], states[0].tip;
            && tip <= s.tip
            && (s.refresh.TipRead? ==> tip <= s.refresh.tip)
            && (s.refresh.Computed? ==> tip <= s.refresh.work.tip)
            && (s.published.Some? ==> tip <= s.published.value.tip)
  {
    if i > 0 {
      NothingBelowTheFirstTip(states, events, i - 1);
      assert StepsTo(states[i - 1], events[i - 1], states[i]);
    }
  }

  /** Refreshes follow one another, so what is published is never newer than what is being prepared. */
  ghost predicate TipsAreOrdered(s: State) {
    s.published.Some? ==>
      && (s.refresh.TipRead? ==> s.published.value.tip <= s.refresh.tip)
      && (s.refresh.Computed? ==> s.published.value.tip <= s.refresh.work.tip)
  }

  lemma {:induction false} RunKeepsTipsOrdered(states: seq<State>, events: seq<Event>, i: nat)
    requires IsRun(states, events) && i <= |events|
    ensures TipsAreOrdered(states[i])
  {
    if i > 0 {
      RunKeepsTipsOrdered(states, events, i - 1);
      RunKeepsInvariant(states, events, i - 1);
      assert StepsTo(states[i - 1], events[i - 1], states[i]);
    }
  }

  /** In a process that starts at the activation height no stale snapshot is ever published. */
  lemma ConfirmedFromTheStart(states: seq<State>, events: seq<Event>, i: nat, v4: bool, a: PeerAddr)
    requires IsRun(states, events) && i <= |events|
    requires states[0].tip == states[0].network.activationHeight
    ensures Invariant(states[i])
    ensures a in Answer(states[i], v4) ==>
              states[i].published.Some?
              && exists meta :: meta in states[i].published.value.book && meta.addr == a
                                && MeetsTarget(states[i].network, meta)
  {
    NothingBelowTheFirstTip(states, events, i);
    RunKeepsInvariant(states, events, i);
    AnswersAreVouched(states, events, i, v4);
    if a in Answer(states[i], v4) {
      VouchedAtActivation(states[i].network, states[i].published.value, v4, a);
    }
  }

  lemma VouchedAtActivation(network: Network, w: Work, v4: bool, a: PeerAddr)
    requires IsVouched(network, w, v4, a) && w.tip == network.activationHeight
    ensures exists meta :: meta in w.book && meta.addr == a && MeetsTarget(network, meta)
  {
    var meta :| meta in w.book && meta.addr == a && a.ip.V4? == v4
                && MayBeServed(meta, network.defaultPort, network.minRemote(w.tip));
    assert MeetsTarget(network, meta);
  }
}
